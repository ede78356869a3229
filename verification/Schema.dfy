/** Schema reconciliation at start-up: adding the columns and indexes an older table lacks,
    and relaxing a global unique constraint to a per-workspace one. */
module Schema {
  import opened Options

  datatype Value = Null | Val(text: string)

  type Record = map<string, Value>

  datatype Column = Column(name: string, nullable: bool, hasDefault: bool)

  datatype Index = Index(name: string, columns: seq<string>, unique: bool)

  /** A table as the ORM declares it. */
  datatype Model = Model(columns: seq<Column>, uniques: set<seq<string>>, indexes: seq<Index>)

  /** A table as the database has it. */
  datatype Table = Table(
    columns: set<string>,
    notNull: set<string>,
    uniques: set<seq<string>>,
    indexes: set<Index>,
    rows: seq<Record>)

  /** The relaxation `_reconcile_composite_unique` is called with. */
  datatype Relax = Relax(single: string, composite: seq<string>)

  datatype Dialect = Sqlite | Postgres

  function Elements(cols: seq<string>): set<string> {
    set c | c in cols
  }

  function Names(columns: seq<Column>): (names: set<string>)
    ensures forall n :: n in names <==> exists c :: c in columns && c.name == n
  {
    set c | c in columns :: c.name
  }

  function Required(columns: seq<Column>): set<string> {
    set c | c in columns && !c.nullable :: c.name
  }

  // ---- keys ----------------------------------------------------------------------------

  /** SQL equality of a key: NULL is equal to nothing. */
  predicate SameKey(a: Record, b: Record, cols: seq<string>) {
    forall c :: c in cols ==> c in a && c in b && a[c] == b[c] && a[c] != Null
  }

  predicate KeyHolds(rows: seq<Record>, cols: seq<string>) {
    forall i, j :: 0 <= i < j < |rows| ==> !SameKey(rows[i], rows[j], cols)
  }

  /** A key that holds still holds with more columns. */
  lemma KeyWidens(rows: seq<Record>, narrow: seq<string>, wide: seq<string>)
    requires Elements(narrow) <= Elements(wide) && KeyHolds(rows, narrow)
    ensures KeyHolds(rows, wide)
  {
    assert forall c :: c in narrow ==> c in Elements(wide);
    forall i, j | 0 <= i < j < |rows| ensures !SameKey(rows[i], rows[j], wide) {
      if SameKey(rows[i], rows[j], wide) {
        assert SameKey(rows[i], rows[j], narrow);
      }
    }
  }

  /** Two row lists that agree, row by row, on the key's columns agree on the key. */
  ghost predicate AgreeOn(rows: seq<Record>, rows': seq<Record>, cols: seq<string>) {
    && |rows'| == |rows|
    && forall i, c :: 0 <= i < |rows| && c in cols ==>
         (c in rows[i] <==> c in rows'[i]) && (c in rows[i] ==> rows'[i][c] == rows[i][c])
  }

  lemma KeyTransfers(rows: seq<Record>, rows': seq<Record>, cols: seq<string>)
    requires AgreeOn(rows, rows', cols)
    ensures KeyHolds(rows, cols) <==> KeyHolds(rows', cols)
  {
    forall i, j | 0 <= i < j < |rows|
      ensures SameKey(rows[i], rows[j], cols) <==> SameKey(rows'[i], rows'[j], cols)
    {
    }
  }

  // ---- columns ---------------------------------------------------------------------------

  predicate Addable(c: Column) {
    c.nullable || c.hasDefault
  }

  function WithNulls(rows: seq<Record>, name: string): (r: seq<Record>)
    ensures |r| == |rows| && forall i :: 0 <= i < |rows| ==> r[i] == rows[i][name := Null]
  {
    if rows == [] then [] else [rows[0][name := Null]] + WithNulls(rows[1..], name)
  }

  /** ALTER TABLE ADD COLUMN with a type only: existing rows read NULL, default or not. */
  function AddColumn(t: Table, c: Column): Table {
    if c.name in t.columns || !Addable(c) then t
    else t.(columns := t.columns + {c.name}, rows := WithNulls(t.rows, c.name))
  }

  function AddColumns(t: Table, columns: seq<Column>): Table
    decreases columns
  {
    if columns == [] then t else AddColumns(AddColumn(t, columns[0]), columns[1..])
  }

  /** Every row has exactly the table's columns, and the table's constraints hold. */
  ghost predicate Valid(t: Table) {
    && (forall i :: 0 <= i < |t.rows| ==> t.rows[i].Keys == t.columns)
    && t.notNull <= t.columns
    && (forall i, c :: 0 <= i < |t.rows| && c in t.notNull ==> t.rows[i][c] != Null)
    && (forall u :: u in t.uniques ==> Elements(u) <= t.columns && KeyHolds(t.rows, u))
    && (forall x :: x in t.indexes && x.unique ==> Elements(x.columns) <= t.columns && KeyHolds(t.rows, x.columns))
  }

  /** What a row's value in a column of the model is, read from a table that may lack it. */
  function Read(t: Table, i: nat, c: string): Value
    requires i < |t.rows|
  {
    if c in t.rows[i] then t.rows[i][c] else Null
  }

  /** No row was lost, and each reads the same in the given columns. */
  ghost predicate Preserves(t: Table, t': Table, columns: set<string>) {
    && |t'.rows| == |t.rows|
    && forall i, c :: 0 <= i < |t.rows| && c in columns ==> Read(t', i, c) == Read(t, i, c)
  }

  lemma AddColumnValid(t: Table, c: Column, all: set<string>)
    requires Valid(t)
    ensures var t' := AddColumn(t, c);
            && Valid(t') && Preserves(t, t', all) && t'.uniques == t.uniques && t'.indexes == t.indexes && t'.notNull == t.notNull
            && t'.columns == t.columns + (if Addable(c) then {c.name} else {})
            && (forall u :: Elements(u) <= t.columns ==> AgreeOn(t.rows, t'.rows, u))
  {
    var t' := AddColumn(t, c);
    forall u | Elements(u) <= t.columns ensures AgreeOn(t.rows, t'.rows, u) {
      assert forall x :: x in u ==> x in Elements(u);
    }
    forall u | u in t.uniques ensures KeyHolds(t'.rows, u) { KeyTransfers(t.rows, t'.rows, u); }
    forall x | x in t.indexes && x.unique ensures KeyHolds(t'.rows, x.columns) { KeyTransfers(t.rows, t'.rows, x.columns); }
  }

  function AddableNames(columns: seq<Column>): set<string> {
    set c | c in columns && Addable(c) :: c.name
  }

  /** Adding columns keeps every row and every value, and ends with every addable column of
      the model. */
  lemma {:induction false} AddColumnsReach(t: Table, columns: seq<Column>, all: set<string>)
    requires Valid(t)
    ensures var t' := AddColumns(t, columns);
            && Valid(t') && Preserves(t, t', all) && t'.uniques == t.uniques && t'.indexes == t.indexes && t'.notNull == t.notNull
            && t'.columns == t.columns + AddableNames(columns)
    decreases columns
  {
    if columns == [] {
      assert AddableNames(columns) == {};
    } else {
      AddColumnValid(t, columns[0], all);
      AddColumnsReach(AddColumn(t, columns[0]), columns[1..], all);
      assert AddableNames(columns) == (if Addable(columns[0]) then {columns[0].name} else {}) + AddableNames(columns[1..]);
    }
  }

  // ---- indexes ---------------------------------------------------------------------------

  predicate HasIndex(t: Table, name: string) {
    exists x :: x in t.indexes && x.name == name
  }

  /** CREATE INDEX, checking first; None when the database refuses it. */
  function AddIndex(t: Table, x: Index): Option<Table> {
    if HasIndex(t, x.name) then Some(t)
    else if !(Elements(x.columns) <= t.columns) || (x.unique && !KeyHolds(t.rows, x.columns)) then None
    else Some(t.(indexes := t.indexes + {x}))
  }

  function AddIndexes(t: Table, indexes: seq<Index>): Option<Table>
    decreases indexes
  {
    if indexes == [] then Some(t)
    else match AddIndex(t, indexes[0])
      case None => None
      case Some(t') => AddIndexes(t', indexes[1..])
  }

  lemma {:induction false} AddIndexesReach(t: Table, indexes: seq<Index>)
    requires Valid(t)
    ensures AddIndexes(t, indexes).Some? ==>
              var t' := AddIndexes(t, indexes).value;
              && Valid(t') && t'.rows == t.rows && t'.columns == t.columns && t'.notNull == t.notNull && t'.uniques == t.uniques
              && t.indexes <= t'.indexes
              && (forall x :: x in indexes ==> HasIndex(t', x.name))
              && (forall x :: x in t'.indexes ==> x in t.indexes || x in indexes)
    decreases indexes
  {
    if indexes != [] && AddIndex(t, indexes[0]).Some? {
      var t1 := AddIndex(t, indexes[0]).value;
      assert HasIndex(t1, indexes[0].name) by {
        if !HasIndex(t, indexes[0].name) { assert indexes[0] in t1.indexes; }
      }
      AddIndexesReach(t1, indexes[1..]);
    }
  }

  lemma {:induction false} AddIndexesIdle(t: Table, indexes: seq<Index>)
    requires forall x :: x in indexes ==> HasIndex(t, x.name)
    ensures AddIndexes(t, indexes) == Some(t)
    decreases indexes
  {
    if indexes != [] { AddIndexesIdle(t, indexes[1..]); }
  }

  // ---- the unique constraint ------------------------------------------------------------

  predicate HasComposite(t: Table, x: Relax) {
    exists u :: u in t.uniques && Elements(u) == Elements(x.composite)
  }

  predicate HasStale(t: Table, x: Relax) {
    [x.single] in t.uniques
  }

  predicate AlreadyCorrect(t: Table, x: Relax) {
    HasComposite(t, x) && !HasStale(t, x)
  }

  function Project(rows: seq<Record>, columns: set<string>): (r: seq<Record>)
    requires forall i :: 0 <= i < |rows| ==> columns <= rows[i].Keys
    ensures |r| == |rows|
    ensures forall i :: 0 <= i < |rows| ==> r[i].Keys == columns && forall c :: c in columns ==> r[i][c] == rows[i][c]
  {
    if rows == [] then []
    else [map c | c in columns :: rows[0][c]] + (assert forall i :: 0 <= i < |rows[1..]| ==> rows[1..][i] == rows[i + 1];
                                                Project(rows[1..], columns))
  }

  /** The rows fit the freshly created table: its NOT NULL columns, its unique constraints and
      its unique indexes. */
  predicate Fits(rows: seq<Record>, m: Model) {
    && (forall i :: 0 <= i < |rows| ==> forall c :: c in Required(m.columns) ==> c in rows[i] && rows[i][c] != Null)
    && (forall u :: u in m.uniques ==> KeyHolds(rows, u))
    && (forall x :: x in m.indexes && x.unique ==> KeyHolds(rows, x.columns))
  }

  function Created(m: Model, rows: seq<Record>): Table {
    Table(Names(m.columns), Required(m.columns), m.uniques, (set x | x in m.indexes), rows)
  }

  /** SQLite: rename away, drop the named indexes, create from the model, copy, drop the old.
      None when the copy is refused. */
  function Rebuild(t: Table, m: Model): Option<Table>
    requires Valid(t)
  {
    if !(Names(m.columns) <= t.columns) then None
    else
      var rows := Project(t.rows, Names(m.columns));
      if Fits(rows, m) then Some(Created(m, rows)) else None
  }

  function RelaxUnique(d: Dialect, t: Table, m: Model, x: Relax): Option<Table>
    requires Valid(t)
  {
    if AlreadyCorrect(t, x) then Some(t)
    else if d.Sqlite? then Rebuild(t, m)
    else
      var dropped := t.uniques - {[x.single]};
      if HasComposite(t, x) then Some(t.(uniques := dropped))
      else if Elements(x.composite) <= t.columns && KeyHolds(t.rows, x.composite) then
        Some(t.(uniques := dropped + {x.composite}))
      else None
  }

  /** One pass over one table. */
  function Reconcile(d: Dialect, t: Table, m: Model, x: Option<Relax>): Option<Table>
    requires Valid(t)
  {
    AddColumnsReach(t, m.columns, {});
    AddIndexesReach(AddColumns(t, m.columns), m.indexes);
    match AddIndexes(AddColumns(t, m.columns), m.indexes)
    case None => None
    case Some(t') => if x.None? then Some(t') else RelaxUnique(d, t', m, x.value)
  }

  // ---- what a pass achieves ------------------------------------------------------------

  /** The model declares the composite constraint and not the global one, keys and indexes
      over columns it has, and one index per name. */
  ghost predicate WellFormed(m: Model, x: Option<Relax>) {
    && (forall u :: u in m.uniques ==> Elements(u) <= Names(m.columns))
    && (forall i :: i in m.indexes ==> Elements(i.columns) <= Names(m.columns))
    && (x.Some? ==> (exists u :: u in m.uniques && Elements(u) == Elements(x.value.composite))
                    && [x.value.single] !in m.uniques
                    && x.value.single in x.value.composite
                    && HasOther(x.value))
  }

  /** All of the model's columns are there or can be added. */
  predicate AllAddable(t: Table, m: Model) {
    forall c :: c in m.columns ==> c.name in t.columns || Addable(c)
  }

  lemma ProjectKeys(rows: seq<Record>, columns: set<string>, u: seq<string>)
    requires (forall i :: 0 <= i < |rows| ==> columns <= rows[i].Keys) && Elements(u) <= columns
    ensures KeyHolds(Project(rows, columns), u) <==> KeyHolds(rows, u)
  {
    assert forall c :: c in u ==> c in Elements(u);
    KeyTransfers(rows, Project(rows, columns), u);
  }

  lemma CreatedValid(t: Table, m: Model, x: Option<Relax>)
    requires Valid(t) && WellFormed(m, x) && Rebuild(t, m).Some?
    ensures Valid(Rebuild(t, m).value) && Preserves(t, Rebuild(t, m).value, Names(m.columns))
  {
    var rows := Project(t.rows, Names(m.columns));
    var t' := Created(m, rows);
    forall i, c | 0 <= i < |t.rows| && c in Names(m.columns) ensures Read(t', i, c) == Read(t, i, c) {
    }
  }

  lemma RelaxKeeps(d: Dialect, t: Table, m: Model, x: Relax)
    requires Valid(t) && WellFormed(m, Some(x)) && RelaxUnique(d, t, m, x).Some?
    ensures var t' := RelaxUnique(d, t, m, x).value;
            Valid(t') && AlreadyCorrect(t', x) && Preserves(t, t', Names(m.columns))
            && (t'.columns == t.columns || t'.columns == Names(m.columns))
            && ((forall i :: i in m.indexes ==> HasIndex(t, i.name)) ==> (forall i :: i in m.indexes ==> HasIndex(t', i.name)))
  {
    var t' := RelaxUnique(d, t, m, x).value;
    if AlreadyCorrect(t, x) {
    } else if d.Sqlite? {
      CreatedValid(t, m, Some(x));
      forall i | i in m.indexes ensures HasIndex(t', i.name) { assert i in t'.indexes; }
    } else {
      PostgresKeeps(t, m, x);
    }
  }

  lemma PostgresKeeps(t: Table, m: Model, x: Relax)
    requires Valid(t) && WellFormed(m, Some(x)) && !AlreadyCorrect(t, x) && RelaxUnique(Postgres, t, m, x).Some?
    ensures var t' := RelaxUnique(Postgres, t, m, x).value;
            Valid(t') && AlreadyCorrect(t', x) && t'.rows == t.rows && t'.columns == t.columns && t'.indexes == t.indexes
  {
    var t' := RelaxUnique(Postgres, t, m, x).value;
    if HasComposite(t, x) {
      var u :| u in t.uniques && Elements(u) == Elements(x.composite);
      NotStale(u, x);
      assert u in t'.uniques;
    } else {
      assert x.composite in t'.uniques;
    }
  }

  /** A constraint over the composite's columns is not the global one. */
  lemma NotStale(u: seq<string>, x: Relax)
    requires Elements(u) == Elements(x.composite) && HasOther(x)
    ensures u != [x.single]
  {
    var c :| c in x.composite && c != x.single;
    assert c in Elements(u);
  }

  ghost predicate HasOther(x: Relax) {
    exists c :: c in x.composite && c != x.single
  }

  lemma {:induction false} AddColumnsIdle(t: Table, columns: seq<Column>)
    requires forall c :: c in columns ==> c.name in t.columns || !Addable(c)
    ensures AddColumns(t, columns) == t
    decreases columns
  {
    if columns != [] { AddColumnsIdle(t, columns[1..]); }
  }

  /** Everything a second pass would look at is in place. */
  ghost predicate Reconciled(t: Table, m: Model, x: Option<Relax>) {
    && (forall c :: c in m.columns ==> c.name in t.columns || !Addable(c))
    && (forall i :: i in m.indexes ==> HasIndex(t, i.name))
    && (x.Some? ==> AlreadyCorrect(t, x.value))
  }

  /** A pass that goes through keeps every row and its value in every column of the model
      (NULL where the column is new), leaves a valid table, and puts everything in place:
      every column that can be added, every index, and the composite constraint instead of
      the global one. */
  lemma PassReaches(d: Dialect, t: Table, m: Model, x: Option<Relax>)
    requires Valid(t) && WellFormed(m, x) && Reconcile(d, t, m, x).Some?
    ensures var t' := Reconcile(d, t, m, x).value;
            && Valid(t') && Preserves(t, t', Names(m.columns)) && Reconciled(t', m, x)
            && (AllAddable(t, m) ==> Names(m.columns) <= t'.columns)
  {
    var t1 := AddColumns(t, m.columns);
    AddColumnsReach(t, m.columns, Names(m.columns));
    AddIndexesReach(t1, m.indexes);
    var t2 := AddIndexes(t1, m.indexes).value;
    if x.Some? {
      RelaxKeeps(d, t2, m, x.value);
    }
    assert forall c :: c in m.columns && Addable(c) ==> c.name in AddableNames(m.columns);
  }

  /** After a pass that relaxes nothing: the columns are those there were and those of the model
      that may be NULL or have a default; every index is one there was or one of the model's, and
      a name the model uses is taken by one of them. */
  lemma PartsAfter(d: Dialect, t: Table, m: Model)
    requires Valid(t) && Reconcile(d, t, m, None).Some?
    ensures var t' := Reconcile(d, t, m, None).value;
            && (forall n :: n in t'.columns <==> n in t.columns || exists c :: c in m.columns && c.name == n && (c.nullable || c.hasDefault))
            && (forall x :: x in t'.indexes ==> x in t.indexes || x in m.indexes) && t.indexes <= t'.indexes
            && (forall x :: x in m.indexes ==> exists y :: y in t'.indexes && y.name == x.name)
  {
    AddColumnsReach(t, m.columns, {});
    AddIndexesReach(AddColumns(t, m.columns), m.indexes);
    assert forall n :: n in AddableNames(m.columns) <==> exists c :: c in m.columns && c.name == n && (c.nullable || c.hasDefault);
    forall x | x in m.indexes ensures exists y :: y in Reconcile(d, t, m, None).value.indexes && y.name == x.name {
      assert HasIndex(Reconcile(d, t, m, None).value, x.name);
    }
  }

  /** What a relaxation is after: the global key gone, and a key over the composite's columns. */
  lemma RelaxationMeans(t: Table, x: Relax)
    ensures AlreadyCorrect(t, x)
       <==> [x.single] !in t.uniques && exists u :: u in t.uniques && SameColumns(u, x.composite)
  {
    forall u | u in t.uniques ensures SameColumns(u, x.composite) <==> Elements(u) == Elements(x.composite) {
      assert forall c :: (c in u <==> c in Elements(u)) && (c in x.composite <==> c in Elements(x.composite));
    }
  }

  ghost predicate SameColumns(u: seq<string>, w: seq<string>) {
    forall c :: c in u <==> c in w
  }

  /** A rebuilt table is the model's: its columns and no others, NOT NULL exactly where the model
      says so, its keys and its indexes; and every row is copied, in order, column by column. */
  lemma RebuiltIsModel(t: Table, m: Model)
    requires Valid(t) && Rebuild(t, m).Some?
    ensures var t' := Rebuild(t, m).value;
            && (forall n :: n in t'.columns <==> exists c :: c in m.columns && c.name == n)
            && (forall n :: n in t'.notNull <==> exists c :: c in m.columns && c.name == n && !c.nullable)
            && t'.uniques == m.uniques && (forall x :: x in t'.indexes <==> x in m.indexes)
            && |t'.rows| == |t.rows|
            && forall i :: 0 <= i < |t.rows| ==>
                 t'.rows[i].Keys == t'.columns && forall n :: n in t'.columns ==> n in t.rows[i] && t'.rows[i][n] == t.rows[i][n]
  {
    assert forall n :: n in Required(m.columns) <==> exists c :: c in m.columns && c.name == n && !c.nullable;
  }

  /** What becomes of a table's constraints. A pass adds no NOT NULL and, without a relaxation to
      make, no key either. Where there is one to make, PostgreSQL drops the global key and has the
      composite one, and SQLite has the model's constraints and no others. */
  lemma ConstraintsAfter(d: Dialect, t: Table, m: Model, x: Option<Relax>)
    requires Valid(t) && Reconcile(d, t, m, x).Some?
    ensures var t' := Reconcile(d, t, m, x).value;
            && (x.None? || AlreadyCorrect(t, x.value) ==> t'.notNull == t.notNull && t'.uniques == t.uniques)
            && (x.Some? && !AlreadyCorrect(t, x.value) && d.Sqlite? ==>
                  t'.notNull == Required(m.columns) && t'.uniques == m.uniques)
            && (x.Some? && !AlreadyCorrect(t, x.value) && d.Postgres? ==>
                  && t'.notNull == t.notNull && t'.uniques <= t.uniques + {x.value.composite}
                  && t.uniques - {[x.value.single]} <= t'.uniques
                  && (HasComposite(t, x.value) || x.value.composite in t'.uniques))
  {
    AddColumnsReach(t, m.columns, {});
    AddIndexesReach(AddColumns(t, m.columns), m.indexes);
  }

  /** A second pass changes nothing. */
  lemma SecondPassIdle(d: Dialect, t: Table, m: Model, x: Option<Relax>)
    requires Valid(t) && WellFormed(m, x) && Reconcile(d, t, m, x).Some?
    ensures var t' := Reconcile(d, t, m, x).value;
            Valid(t') && Reconcile(d, t', m, x) == Some(t')
  {
    PassReaches(d, t, m, x);
    var t' := Reconcile(d, t, m, x).value;
    AddColumnsIdle(t', m.columns);
    AddIndexesIdle(t', m.indexes);
  }

  // ---- when a pass goes through ----------------------------------------------------------

  /** The model's only keys are composites that contain the once-global column. */
  ghost predicate OnlyComposites(m: Model, x: Relax) {
    && (forall u :: u in m.uniques ==> x.single in u)
    && (forall i :: i in m.indexes ==> !i.unique)
  }

  /** The copy of a rebuild cannot violate the composite key, because the global key held;
      the one thing that can stop it is a NULL where the model has a NOT NULL column. */
  lemma RebuildIff(t: Table, m: Model, x: Relax)
    requires Valid(t) && WellFormed(m, Some(x)) && OnlyComposites(m, x) && HasStale(t, x)
    ensures Rebuild(t, m).Some?
       <==> Names(m.columns) <= t.columns && forall i, c :: 0 <= i < |t.rows| && c in Required(m.columns) ==> t.rows[i][c] != Null
  {
    if Names(m.columns) <= t.columns {
      var rows := Project(t.rows, Names(m.columns));
      assert Required(m.columns) <= Names(m.columns);
      forall u | u in m.uniques ensures KeyHolds(rows, u) {
        KeyWidens(t.rows, [x.single], u);
        ProjectKeys(t.rows, Names(m.columns), u);
      }
    }
  }

  lemma {:induction false} PlainIndexesGoThrough(t: Table, indexes: seq<Index>)
    requires forall i :: i in indexes ==> !i.unique && Elements(i.columns) <= t.columns
    ensures AddIndexes(t, indexes).Some?
    decreases indexes
  {
    if indexes != [] {
      PlainIndexesGoThrough(AddIndex(t, indexes[0]).value, indexes[1..]);
    }
  }

  /** No NULL, and no missing column, where the model says NOT NULL, in any row there is. */
  ghost predicate NoGaps(t: Table, m: Model) {
    forall i, c :: 0 <= i < |t.rows| && c in Required(m.columns) ==> c in t.rows[i] && t.rows[i][c] != Null
  }

  /** On SQLite, for a table that still has the global constraint and lacks only columns that
      can be added, a pass goes through exactly when every existing row has a value in every
      NOT NULL column of the model. A missing NOT NULL column is added as all NULL even when
      it has a default, so with one row in the table the rebuild is then refused. */
  lemma SqlitePassIff(t: Table, m: Model, x: Relax)
    requires Valid(t) && WellFormed(m, Some(x)) && OnlyComposites(m, x) && HasStale(t, x) && AllAddable(t, m)
    ensures Reconcile(Sqlite, t, m, Some(x)).Some? <==> NoGaps(t, m)
  {
    var t1 := AddColumns(t, m.columns);
    AddColumnsReach(t, m.columns, Names(m.columns));
    AddIndexesReach(t1, m.indexes);
    assert Names(m.columns) <= t1.columns by {
      assert forall c :: c in m.columns && Addable(c) ==> c.name in AddableNames(m.columns);
    }
    PlainIndexesGoThrough(t1, m.indexes);
    var t2 := AddIndexes(t1, m.indexes).value;
    RebuildIff(t2, m, x);
    assert Required(m.columns) <= Names(m.columns);
    forall i, c | 0 <= i < |t.rows| && c in Required(m.columns)
      ensures t2.rows[i][c] == Read(t, i, c) && Read(t2, i, c) == Read(t, i, c)
    {
    }
    GapsRead(t, t2, m);
  }

  lemma GapsRead(t: Table, t2: Table, m: Model)
    requires Valid(t) && |t2.rows| == |t.rows|
    requires forall i, c :: 0 <= i < |t.rows| && c in Required(m.columns) ==> c in t2.rows[i] && t2.rows[i][c] == Read(t, i, c)
    ensures NoGaps(t, m) <==> forall i, c :: 0 <= i < |t.rows| && c in Required(m.columns) ==> t2.rows[i][c] != Null
  {
    forall i, c | 0 <= i < |t.rows| && c in Required(m.columns)
      ensures t2.rows[i][c] != Null <==> c in t.rows[i] && t.rows[i][c] != Null
    {
    }
  }

  /** On PostgreSQL the same table always goes through, NULLs and all. */
  lemma PostgresPassGoesThrough(t: Table, m: Model, x: Relax)
    requires Valid(t) && WellFormed(m, Some(x)) && OnlyComposites(m, x) && HasStale(t, x) && AllAddable(t, m)
    requires Elements(x.composite) <= Names(m.columns)
    ensures Reconcile(Postgres, t, m, Some(x)).Some?
  {
    var t1 := AddColumns(t, m.columns);
    AddColumnsReach(t, m.columns, Names(m.columns));
    AddIndexesReach(t1, m.indexes);
    assert Names(m.columns) <= t1.columns by {
      assert forall c :: c in m.columns && Addable(c) ==> c.name in AddableNames(m.columns);
    }
    PlainIndexesGoThrough(t1, m.indexes);
    KeyWidens(t1.rows, [x.single], x.composite);
  }

  // ---- the database, table by table -------------------------------------------------------

  /** A declared table: its name, model, and the relaxation it is called with, if any. */
  datatype Declared = Declared(name: string, model: Model, relax: Option<Relax>)

  class Database {
    const dialect: Dialect
    var tables: map<string, Table>

    constructor (dialect: Dialect, tables: map<string, Table>)
      ensures this.dialect == dialect && this.tables == tables
    {
      this.dialect, this.tables := dialect, tables;
    }

    method AlterAddColumn(name: string, c: Column)
      requires name in tables && c.name !in tables[name].columns && Addable(c)
      modifies this
      ensures tables == old(tables)[name := AddColumn(old(tables)[name], c)]
    {
      var t := tables[name];
      var rows := WithNulls(t.rows, c.name);
      tables := tables[name := t.(columns := t.columns + {c.name}, rows := rows)];
    }

    method AddMissingColumns(name: string, columns: seq<Column>)
      requires name in tables
      modifies this
      ensures tables == old(tables)[name := AddColumns(old(tables)[name], columns)]
    {
      var i := 0;
      while i < |columns|
        invariant 0 <= i <= |columns| && name in tables
        invariant tables == old(tables)[name := tables[name]]
        invariant AddColumns(tables[name], columns[i..]) == AddColumns(old(tables)[name], columns)
      {
        assert columns[i..][1..] == columns[i + 1..];
        if columns[i].name !in tables[name].columns && Addable(columns[i]) {
          AlterAddColumn(name, columns[i]);
        }
        i := i + 1;
      }
    }

    method CreateMissingIndexes(name: string, indexes: seq<Index>) returns (ok: bool)
      requires name in tables
      modifies this
      ensures ok <==> AddIndexes(old(tables)[name], indexes).Some?
      ensures ok ==> tables == old(tables)[name := AddIndexes(old(tables)[name], indexes).value]
      ensures tables.Keys == old(tables).Keys
      ensures tables == old(tables)[name := old(tables)[name].(indexes := tables[name].indexes)]
    {
      var i := 0;
      while i < |indexes|
        invariant 0 <= i <= |indexes| && name in tables
        invariant tables == old(tables)[name := tables[name]]
        invariant tables[name] == old(tables)[name].(indexes := tables[name].indexes)
        invariant AddIndexes(tables[name], indexes[i..]) == AddIndexes(old(tables)[name], indexes)
      {
        assert indexes[i..][1..] == indexes[i + 1..];
        var t := AddIndex(tables[name], indexes[i]);
        if t.None? {
          return false;
        }
        tables := tables[name := t.value];
        i := i + 1;
      }
      ok := true;
    }

    /** The SQLite rebuild, statement by statement; it stops at the first that is refused, and
        what the ones before have done stays. */
    method RebuildTable(name: string, m: Model) returns (ok: bool)
      requires name in tables && Valid(tables[name])
      modifies this
      ensures ok <==> Temporary(name) !in old(tables) && Rebuild(old(tables)[name], m).Some?
      ensures ok ==> tables == old(tables)[name := Rebuild(old(tables)[name], m).value]
      ensures !ok ==> tables == if Temporary(name) in old(tables) then old(tables) else Interrupted(old(tables), name, m)
    {
      var tmp := Temporary(name);
      TemporaryIsOther(name);
      if tmp in tables {
        return false;
      }
      ghost var before := tables;
      tables := (tables - {name})[tmp := tables[name]];
      tables := tables[tmp := tables[tmp].(indexes := {})];
      tables := tables[name := Created(m, [])];
      var source := tables[tmp];
      if !(Names(m.columns) <= source.columns) {
        return false;
      }
      var copied := Project(source.rows, Names(m.columns));
      if !Fits(copied, m) {
        return false;
      }
      Replaced(before, tables, name, source, Created(m, []), Created(m, copied));
      tables := tables[name := tables[name].(rows := copied)];
      tables := tables - {tmp};
      ok := true;
    }

    /** `_reconcile_composite_unique`. */
    method RelaxUniqueKey(name: string, m: Model, x: Relax) returns (ok: bool)
      requires name in tables ==> Valid(tables[name])
      modifies this
      ensures name !in old(tables) ==> ok && tables == old(tables)
      ensures name in old(tables) ==>
                (ok <==> RelaxUnique(dialect, old(tables)[name], m, x).Some? && !Clashes(dialect, old(tables), name, x))
      ensures name in old(tables) && ok ==> tables == old(tables)[name := RelaxUnique(dialect, old(tables)[name], m, x).value]
      ensures !ok ==> tables == if dialect.Postgres? || Temporary(name) in old(tables) then old(tables)
                                else Interrupted(old(tables), name, m)
    {
      if name !in tables || AlreadyCorrect(tables[name], x) {
        return true;
      }
      if dialect.Sqlite? {
        ok := RebuildTable(name, m);
        return;
      }
      var t := tables[name];
      var hasComposite := HasComposite(t, x);
      var uniques := t.uniques - {[x.single]};
      if !hasComposite {
        if !(Elements(x.composite) <= t.columns) || !KeyHolds(t.rows, x.composite) {
          return false;
        }
        uniques := uniques + {x.composite};
      }
      tables := tables[name := t.(uniques := uniques)];
      ok := true;
    }

    /** `_reconcile_existing_tables`: all columns, then all indexes, then the relaxations, for
        the declared tables that exist. */
    method ReconcileExistingTables(ds: seq<Declared>) returns (ok: bool)
      requires Ready(tables, ds)
      modifies this
      ensures ok <==> forall d :: d in ds && d.name in old(tables) ==> GoesThrough(dialect, old(tables), d)
      ensures ok ==> Unlisted(tables, ds) == Unlisted(old(tables), ds) && tables.Keys == old(tables).Keys
      ensures ok ==> forall d :: d in ds && d.name in old(tables) ==>
                Some(tables[d.name]) == Reconcile(dialect, old(tables)[d.name], d.model, d.relax)
      ensures !ok ==> NothingLost(old(tables), tables, ds)
    {
      ghost var start := tables;
      AddAllColumns(ds);
      ghost var widened := tables;
      ok := CreateAllIndexes(ds);
      ghost var indexed := tables;
      ColumnsLoseNothing(start, indexed, ds);
      if ok {
        PassSoFar(dialect, start, widened, indexed, ds);
        ok := RelaxAll(ds);
        if !ok {
          LosesNothingYet(start, indexed, tables, ds);
        }
      } else {
        PassStops(dialect, start, widened, ds);
      }
    }

    method AddAllColumns(ds: seq<Declared>)
      requires Ready(tables, ds)
      modifies this
      ensures Ready(tables, ds) && Unlisted(tables, ds) == Unlisted(old(tables), ds) && tables.Keys == old(tables).Keys
      ensures forall d :: d in ds && d.name in old(tables) ==>
                tables[d.name] == AddColumns(old(tables)[d.name], d.model.columns)
    {
      for i := 0 to |ds|
        invariant Ready(tables, ds) && Unlisted(tables, ds) == Unlisted(old(tables), ds) && tables.Keys == old(tables).Keys
        invariant forall j :: 0 <= j < |ds| && ds[j].name in old(tables) ==>
          tables[ds[j].name]
          == if j < i then AddColumns(old(tables)[ds[j].name], ds[j].model.columns) else old(tables)[ds[j].name]
      {
        if ds[i].name in tables {
          AddColumnsReach(tables[ds[i].name], ds[i].model.columns, {});
          AddMissingColumns(ds[i].name, ds[i].model.columns);
        }
      }
    }

    method CreateAllIndexes(ds: seq<Declared>) returns (ok: bool)
      requires Ready(tables, ds)
      modifies this
      ensures ok <==> forall d :: d in ds && d.name in old(tables) ==> AddIndexes(old(tables)[d.name], d.model.indexes).Some?
      ensures ok ==> Ready(tables, ds) && Unlisted(tables, ds) == Unlisted(old(tables), ds) && tables.Keys == old(tables).Keys
      ensures ok ==> forall d :: d in ds && d.name in old(tables) ==>
                Some(tables[d.name]) == AddIndexes(old(tables)[d.name], d.model.indexes)
      ensures Unlisted(tables, ds) == Unlisted(old(tables), ds) && tables.Keys == old(tables).Keys
      ensures forall d :: d in ds && d.name in old(tables) ==> tables[d.name].rows == old(tables)[d.name].rows
    {
      for i := 0 to |ds|
        invariant Ready(tables, ds) && Unlisted(tables, ds) == Unlisted(old(tables), ds) && tables.Keys == old(tables).Keys
        invariant forall j :: 0 <= j < |ds| && ds[j].name in old(tables) ==> tables[ds[j].name].rows == old(tables)[ds[j].name].rows
        invariant forall j :: 0 <= j < |ds| && ds[j].name in old(tables) ==>
          Some(tables[ds[j].name])
          == if j < i then AddIndexes(old(tables)[ds[j].name], ds[j].model.indexes) else Some(old(tables)[ds[j].name])
      {
        if ds[i].name in tables {
          AddIndexesReach(tables[ds[i].name], ds[i].model.indexes);
          var created := CreateMissingIndexes(ds[i].name, ds[i].model.indexes);
          if !created {
            assert ds[i] in ds;
            return false;
          }
        }
      }
      ok := true;
    }

    method RelaxOne(d: Declared) returns (ok: bool)
      requires d.name in tables ==> Valid(tables[d.name])
      modifies this
      ensures d.name !in old(tables) ==> ok && tables == old(tables)
      ensures d.name in old(tables) ==> (ok <==> CanRelax(dialect, old(tables), d))
      ensures d.name in old(tables) && ok ==> tables == old(tables)[d.name := Relaxed(dialect, old(tables)[d.name], d).value]
      ensures !ok ==> tables == if dialect.Postgres? || Temporary(d.name) in old(tables) then old(tables)
                                else Interrupted(old(tables), d.name, d.model)
    {
      if d.relax.None? {
        return true;
      }
      ok := RelaxUniqueKey(d.name, d.model, d.relax.value);
    }

    method RelaxAll(ds: seq<Declared>) returns (ok: bool)
      requires Ready(tables, ds)
      modifies this
      ensures ok <==> forall d :: d in ds && d.name in old(tables) ==> CanRelax(dialect, old(tables), d)
      ensures ok ==> Unlisted(tables, ds) == Unlisted(old(tables), ds) && tables.Keys == old(tables).Keys
      ensures ok ==> forall d :: d in ds && d.name in old(tables) ==>
                Some(tables[d.name]) == Relaxed(dialect, old(tables)[d.name], d)
      ensures !ok ==> NothingLost(old(tables), tables, ds)
    {
      for i := 0 to |ds|
        invariant ReadyFrom(tables, ds, i) && Unlisted(tables, ds) == Unlisted(old(tables), ds)
        invariant tables.Keys == old(tables).Keys
        invariant forall j :: 0 <= j < i && ds[j].name in old(tables) ==> CanRelax(dialect, old(tables), ds[j])
        invariant forall j :: 0 <= j < |ds| && ds[j].name in old(tables) ==>
          Some(tables[ds[j].name])
          == if j < i then Relaxed(dialect, old(tables)[ds[j].name], ds[j]) else Some(old(tables)[ds[j].name])
      {
        SameTarget(dialect, old(tables), tables, ds[i]);
        ghost var before := tables;
        var relaxed := RelaxOne(ds[i]);
        if !relaxed {
          assert ds[i] in ds;
          RelaxedLoseNothing(dialect, old(tables), before, ds, i);
          InterruptedLosesNothing(old(tables), before, tables, ds, i);
          return false;
        }
      }
      ok := true;
    }
  }

  /** The name a rebuild moves the old table to. */
  function Temporary(name: string): string {
    "_" + name + "_old"
  }

  lemma TemporaryIsOther(name: string)
    ensures Temporary(name) != name
  {
    assert |Temporary(name)| > |name|;
  }

  /** The tables after a rebuild's steps are the tables before it with one replaced. */
  lemma Replaced(before: map<string, Table>, during: map<string, Table>, name: string, source: Table, empty: Table, full: Table)
    requires name in before && Temporary(name) !in before && Temporary(name) != name
    requires during == (before - {name})[Temporary(name) := source][name := empty]
    ensures during[name := full] - {Temporary(name)} == before[name := full]
  {
  }

  /** What a rebuild leaves that is refused when it copies the rows: an empty table made from the
      model, and the old one under its temporary name. */
  function Interrupted(tables: map<string, Table>, name: string, m: Model): map<string, Table>
    requires name in tables
  {
    (tables - {name})[Temporary(name) := tables[name].(indexes := {})][name := Created(m, [])]
  }

  /** A table's rows are all there, under its own name or the temporary one, and read the same in
      the columns of the model. */
  ghost predicate Survives(t: Table, tables: map<string, Table>, d: Declared) {
    || (d.name in tables && Preserves(t, tables[d.name], Names(d.model.columns)))
    || (Temporary(d.name) in tables && Preserves(t, tables[Temporary(d.name)], Names(d.model.columns)))
  }

  /** Every declared table's rows survive, and every other table is as it was. */
  ghost predicate NothingLost(before: map<string, Table>, after: map<string, Table>, ds: seq<Declared>) {
    && (forall d :: d in ds && d.name in before ==> Survives(before[d.name], after, d))
    && (forall n :: n in Unlisted(before, ds) ==> n in after && after[n] == before[n])
  }

  lemma RelaxedPreserves(dialect: Dialect, t: Table, d: Declared)
    requires Valid(t) && Relaxed(dialect, t, d).Some?
    ensures Preserves(t, Relaxed(dialect, t, d).value, Names(d.model.columns))
  {
  }

  lemma RelaxedLoseNothing(dialect: Dialect, start: map<string, Table>, before: map<string, Table>, ds: seq<Declared>, i: nat)
    requires i < |ds| && Ready(start, ds) && Unlisted(before, ds) == Unlisted(start, ds) && before.Keys == start.Keys
    requires forall j :: 0 <= j < |ds| && ds[j].name in start ==>
               Some(before[ds[j].name])
               == if j < i then Relaxed(dialect, start[ds[j].name], ds[j]) else Some(start[ds[j].name])
    ensures forall d :: d in ds && d.name in start ==> Preserves(start[d.name], before[d.name], Names(d.model.columns))
  {
    forall d | d in ds && d.name in start
      ensures Preserves(start[d.name], before[d.name], Names(d.model.columns))
    {
      var j :| 0 <= j < |ds| && ds[j] == d;
      if j < i { RelaxedPreserves(dialect, start[d.name], d); }
    }
  }

  lemma InterruptedLosesNothing(start: map<string, Table>, before: map<string, Table>, after: map<string, Table>,
                                ds: seq<Declared>, i: nat)
    requires i < |ds| && Ready(start, ds) && Unlisted(before, ds) == Unlisted(start, ds) && before.Keys == start.Keys
    requires ds[i].name in before
    requires forall d :: d in ds && d.name in start ==> Preserves(start[d.name], before[d.name], Names(d.model.columns))
    requires after == before
             || (Temporary(ds[i].name) !in before && after == Interrupted(before, ds[i].name, ds[i].model))
    ensures NothingLost(start, after, ds)
  {
    TemporaryIsOther(ds[i].name);
    forall d | d in ds && d.name in start ensures Survives(start[d.name], after, d) {
      if after != before && d.name == ds[i].name {
        var j :| 0 <= j < |ds| && ds[j] == d;
        assert i == j;
        MovedPreserves(start[d.name], before[d.name], Names(d.model.columns));
      }
    }
    forall n | n in Unlisted(start, ds) ensures n in after && after[n] == start[n] {
      assert n in Unlisted(before, ds) && before[n] == Unlisted(before, ds)[n] == Unlisted(start, ds)[n];
      assert ds[i] in ds;
    }
  }

  lemma MovedPreserves(t: Table, moved: Table, columns: set<string>)
    requires Preserves(t, moved, columns)
    ensures Preserves(t, moved.(indexes := {}), columns)
  {
    assert forall i, c :: 0 <= i < |t.rows| ==> Read(moved.(indexes := {}), i, c) == Read(moved, i, c);
  }

  lemma ColumnsLoseNothing(start: map<string, Table>, indexed: map<string, Table>, ds: seq<Declared>)
    requires Ready(start, ds) && Unlisted(indexed, ds) == Unlisted(start, ds) && indexed.Keys == start.Keys
    requires forall d :: d in ds && d.name in start ==> indexed[d.name].rows == AddColumns(start[d.name], d.model.columns).rows
    ensures NothingLost(start, indexed, ds)
    ensures forall d :: d in ds && d.name in start ==> Preserves(start[d.name], indexed[d.name], Names(d.model.columns))
  {
    forall d | d in ds && d.name in start
      ensures Preserves(start[d.name], indexed[d.name], Names(d.model.columns))
    {
      var wider := AddColumns(start[d.name], d.model.columns);
      AddColumnsReach(start[d.name], d.model.columns, Names(d.model.columns));
      assert forall i, c :: 0 <= i < |wider.rows| ==> Read(indexed[d.name], i, c) == Read(wider, i, c);
    }
    forall n | n in Unlisted(start, ds) ensures n in indexed && indexed[n] == start[n] {
      assert n in Unlisted(indexed, ds) && indexed[n] == Unlisted(indexed, ds)[n];
    }
  }

  lemma LosesNothingYet(start: map<string, Table>, indexed: map<string, Table>, after: map<string, Table>, ds: seq<Declared>)
    requires Unlisted(indexed, ds) == Unlisted(start, ds) && indexed.Keys == start.Keys
    requires forall d :: d in ds && d.name in start ==> Preserves(start[d.name], indexed[d.name], Names(d.model.columns))
    requires NothingLost(indexed, after, ds)
    ensures NothingLost(start, after, ds)
  {
    forall d | d in ds && d.name in start ensures Survives(start[d.name], after, d) {
      assert Survives(indexed[d.name], after, d);
      if d.name in after { PreservesOn(start[d.name], indexed[d.name], after[d.name], Names(d.model.columns)); }
      var tmp := Temporary(d.name);
      if tmp in after { PreservesOn(start[d.name], indexed[d.name], after[tmp], Names(d.model.columns)); }
    }
    forall n | n in Unlisted(start, ds) ensures n in after && after[n] == start[n] {
      assert n in Unlisted(indexed, ds) && Unlisted(indexed, ds)[n] == Unlisted(start, ds)[n];
    }
  }

  lemma PreservesOn(a: Table, b: Table, c: Table, columns: set<string>)
    requires Preserves(a, b, columns)
    ensures Preserves(b, c, columns) ==> Preserves(a, c, columns)
  {
  }

  /** But the rows a refused rebuild leaves under the temporary name stay there: at the next start
      the new, empty table is in order, so the pass goes through and has nothing to do with them. */
  lemma InterruptedIsOverlooked(tables: map<string, Table>, d: Declared, x: Relax)
    requires d.name in tables && Valid(tables[d.name]) && Temporary(d.name) !in tables
    requires WellFormed(d.model, Some(x)) && Rebuild(tables[d.name], d.model).None?
    ensures var after := Interrupted(tables, d.name, d.model);
            && after[d.name].rows == [] && Temporary(d.name) in after && after[Temporary(d.name)].rows == tables[d.name].rows
            && Valid(after[d.name]) && Reconcile(Sqlite, after[d.name], d.model, Some(x)) == Some(after[d.name])
            && !Clashes(Sqlite, after, d.name, x)
  {
    var renewed := Created(d.model, []);
    TemporaryIsOther(d.name);
    var u :| u in d.model.uniques && Elements(u) == Elements(x.composite);
    assert u in renewed.uniques && AlreadyCorrect(renewed, x);
    assert forall i :: i in d.model.indexes ==> i in renewed.indexes && HasIndex(renewed, i.name);
    AddColumnsIdle(renewed, d.model.columns);
    AddIndexesIdle(renewed, d.model.indexes);
  }

  /** A rebuild is needed and its temporary name is taken: what an interrupted one leaves. */
  predicate Clashes(d: Dialect, tables: map<string, Table>, name: string, x: Relax)
    requires name in tables
  {
    d.Sqlite? && !AlreadyCorrect(tables[name], x) && Temporary(name) in tables
  }

  /** A declared table after its relaxation, if it asks for one. */
  function Relaxed(dialect: Dialect, t: Table, d: Declared): Option<Table>
    requires Valid(t)
  {
    if d.relax.None? then Some(t) else RelaxUnique(dialect, t, d.model, d.relax.value)
  }

  /** The relaxation of an existing table goes through. */
  predicate CanRelax(dialect: Dialect, tables: map<string, Table>, d: Declared)
    requires d.name in tables && Valid(tables[d.name])
  {
    Relaxed(dialect, tables[d.name], d).Some? && (d.relax.Some? ==> !Clashes(dialect, tables, d.name, d.relax.value))
  }

  /** The pass over one table goes through, and nothing stands in the way of its rebuild. */
  predicate GoesThrough(dialect: Dialect, tables: map<string, Table>, d: Declared)
    requires d.name in tables && Valid(tables[d.name])
  {
    && Reconcile(dialect, tables[d.name], d.model, d.relax).Some?
    && (d.relax.Some? ==> !Clashes(dialect, tables, d.name, d.relax.value))
  }

  /** With columns and indexes in place, what is left of a pass is the relaxation. */
  lemma PassSoFar(dialect: Dialect, start: map<string, Table>, widened: map<string, Table>, indexed: map<string, Table>,
                  ds: seq<Declared>)
    requires Ready(start, ds) && Ready(indexed, ds) && widened.Keys == start.Keys == indexed.Keys
    requires forall d :: d in ds && d.name in start ==>
               && widened[d.name] == AddColumns(start[d.name], d.model.columns)
               && Some(indexed[d.name]) == AddIndexes(widened[d.name], d.model.indexes)
    ensures forall d :: d in ds && d.name in start ==>
              && Valid(start[d.name]) && Valid(indexed[d.name])
              && Reconcile(dialect, start[d.name], d.model, d.relax) == Relaxed(dialect, indexed[d.name], d)
              && (GoesThrough(dialect, start, d) <==> CanRelax(dialect, indexed, d))
  {
    forall d | d in ds && d.name in start
      ensures Valid(start[d.name]) && Valid(indexed[d.name])
      ensures Reconcile(dialect, start[d.name], d.model, d.relax) == Relaxed(dialect, indexed[d.name], d)
      ensures GoesThrough(dialect, start, d) <==> CanRelax(dialect, indexed, d)
    {
      IsReady(start, ds, d);
      IsReady(indexed, ds, d);
      TableSoFar(dialect, start, indexed, d);
    }
  }

  lemma IsReady(tables: map<string, Table>, ds: seq<Declared>, d: Declared)
    requires Ready(tables, ds) && d in ds && d.name in tables
    ensures Valid(tables[d.name])
  {
    var i :| 0 <= i < |ds| && ds[i] == d;
  }

  lemma TableSoFar(dialect: Dialect, start: map<string, Table>, indexed: map<string, Table>, d: Declared)
    requires d.name in start && indexed.Keys == start.Keys && Valid(start[d.name]) && Valid(indexed[d.name])
    requires Some(indexed[d.name]) == AddIndexes(AddColumns(start[d.name], d.model.columns), d.model.indexes)
    ensures Reconcile(dialect, start[d.name], d.model, d.relax) == Relaxed(dialect, indexed[d.name], d)
    ensures GoesThrough(dialect, start, d) <==> CanRelax(dialect, indexed, d)
  {
    AddColumnsReach(start[d.name], d.model.columns, {});
    AddIndexesReach(AddColumns(start[d.name], d.model.columns), d.model.indexes);
  }

  /** A refused index stops the pass. */
  lemma PassStops(dialect: Dialect, start: map<string, Table>, widened: map<string, Table>, ds: seq<Declared>)
    requires Ready(start, ds) && widened.Keys == start.Keys
    requires forall d :: d in ds && d.name in start ==> widened[d.name] == AddColumns(start[d.name], d.model.columns)
    requires exists d :: d in ds && d.name in start && AddIndexes(widened[d.name], d.model.indexes).None?
    ensures exists d :: d in ds && d.name in start && Valid(start[d.name]) && !GoesThrough(dialect, start, d)
  {
    var d :| d in ds && d.name in start && AddIndexes(widened[d.name], d.model.indexes).None?;
    IsReady(start, ds, d);
    assert Reconcile(dialect, start[d.name], d.model, d.relax).None?;
  }

  lemma SameTarget(dialect: Dialect, before: map<string, Table>, after: map<string, Table>, d: Declared)
    requires before.Keys == after.Keys
    requires d.name in before ==> before[d.name] == after[d.name] && Valid(before[d.name])
    ensures d.name in before ==> (CanRelax(dialect, before, d) <==> CanRelax(dialect, after, d))
  {
  }

  /** The declared tables have distinct names, and those that exist satisfy their constraints. */
  ghost predicate ReadyFrom(tables: map<string, Table>, ds: seq<Declared>, from: nat) {
    && (forall i, j :: 0 <= i < j < |ds| ==> ds[i].name != ds[j].name)
    && (forall i :: from <= i < |ds| && ds[i].name in tables ==> Valid(tables[ds[i].name]))
  }

  ghost predicate Ready(tables: map<string, Table>, ds: seq<Declared>) {
    ReadyFrom(tables, ds, 0)
  }

  /** The tables that are not declared. */
  function Unlisted(tables: map<string, Table>, ds: seq<Declared>): map<string, Table> {
    tables - (set d | d in ds :: d.name)
  }
}
