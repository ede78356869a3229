/** Persisting results: the globally keyed results table, one run's counters, and the id a
    streamed result carries. */
module Results {
  import opened Options
  import opened Text

  /** A result as an engine reports it: both entries may be missing from the dictionary. */
  datatype Reported = Reported(id: Option<string>, status: Option<string>)

  datatype ResultRow = ResultRow(run: string, status: string)

  /** The results table, keyed by its primary key, and `Run.totals` of the run `run`. */
  datatype Store = Store(run: string, table: map<string, ResultRow>, totals: map<string, nat>)

  function Count(totals: map<string, nat>, key: string): nat {
    if key in totals then totals[key] else 0
  }

  function Bump(totals: map<string, nat>, key: string): map<string, nat> {
    totals[key := Count(totals, key) + 1]
  }

  /** The id `_persist_result` settles on: the reported one if it is truthy and unused, else a
      random one; only the reported one is checked against the table. */
  function ChosenId(store: Store, r: Reported, uuid1: string, uuid2: string): string {
    var id := if r.id.Some? && r.id.value != "" then r.id.value else uuid1;
    if id in store.table then uuid2 else id
  }

  /** One `_persist_result` transaction: refused whole by the primary key when the chosen id
      is taken after all. */
  function Persist(store: Store, r: Reported, id: string): Store {
    if id in store.table then store
    else
      var status := r.status.GetOr("ERROR");
      store.(table := store.table[id := ResultRow(store.run, status)],
             totals := Bump(Bump(store.totals, "total"), Lower(status)))
  }

  class ResultStore {
    const run: string
    var table: map<string, ResultRow>
    var totals: map<string, nat>

    function Value(): Store
      reads this
    {
      Store(run, table, totals)
    }

    constructor (run: string, table: map<string, ResultRow>)
      ensures Value() == Store(run, table, map[])
    {
      this.run, this.table, this.totals := run, table, map[];
    }

    /** Returns the id written back into the result, which the streamed event then carries,
        and whether the commit went through. */
    method PersistResult(r: Reported, uuid1: string, uuid2: string) returns (id: string, stored: bool)
      modifies this
      ensures id == ChosenId(old(Value()), r, uuid1, uuid2)
      ensures Value() == Persist(old(Value()), r, id)
      ensures stored <==> id !in old(table)
    {
      id := if r.id.Some? && r.id.value != "" then r.id.value else uuid1;
      if id in table {
        id := uuid2;
      }
      stored := id !in table;
      if stored {
        var status := r.status.GetOr("ERROR");
        table := table[id := ResultRow(run, status)];
        CountOne("total");
        CountOne(Lower(status));
      }
    }

    method CountOne(key: string)
      modifies this`totals
      ensures totals == Bump(old(totals), key)
    {
      totals := totals[key := (if key in totals then totals[key] else 0) + 1];
    }
  }

  // ---- what the counters count ----------------------------------------------------------

  /** The run's own rows, and those of one status, by primary key. */
  ghost function Mine(store: Store): set<string> {
    set id | id in store.table && store.table[id].run == store.run
  }

  ghost function WithStatus(store: Store, key: string): set<string> {
    set id | id in store.table && store.table[id].run == store.run && Lower(store.table[id].status) == key
  }

  ghost function Sum(m: map<string, nat>): nat
  {
    if m == map[] then 0
    else
      var k :| k in m;
      m[k] + Sum(m - {k})
  }

  lemma {:induction false} SumRemove(m: map<string, nat>, k: string)
    requires k in m
    ensures Sum(m) == m[k] + Sum(m - {k})
    decreases |m|
  {
    var j :| j in m && Sum(m) == m[j] + Sum(m - {j});
    if j != k {
      SumRemove(m - {j}, k);
      SumRemove(m - {k}, j);
      assert m - {j} - {k} == m - {k} - {j};
    }
  }

  lemma SumBump(m: map<string, nat>, k: string)
    ensures Sum(Bump(m, k)) == Sum(m) + 1
  {
    SumRemove(Bump(m, k), k);
    assert Bump(m, k) - {k} == m - {k};
    if k in m {
      SumRemove(m, k);
    } else {
      assert m - {k} == m;
    }
  }

  /** The status entries of the counters, which a status spelled "total" shares its key with. */
  function Statuses(totals: map<string, nat>): map<string, nat> {
    totals - {"total"}
  }

  ghost predicate Agrees(store: Store) {
    && Count(store.totals, "total") == |Mine(store)| + |WithStatus(store, "total")|
    && (forall key :: key != "total" ==> Count(store.totals, key) == |WithStatus(store, key)|)
    && Sum(Statuses(store.totals)) + |WithStatus(store, "total")| == |Mine(store)|
  }

  lemma PersistRows(store: Store, r: Reported, id: string, key: string)
    requires id !in store.table
    ensures Mine(Persist(store, r, id)) == Mine(store) + {id} && id !in Mine(store)
    ensures WithStatus(Persist(store, r, id), key)
         == WithStatus(store, key) + if Lower(r.status.GetOr("ERROR")) == key then {id} else {}
    ensures id !in WithStatus(store, key)
  {
  }

  lemma PersistSum(store: Store, r: Reported, id: string)
    requires id !in store.table
    ensures Sum(Statuses(Persist(store, r, id).totals))
         == Sum(Statuses(store.totals)) + if Lower(r.status.GetOr("ERROR")) == "total" then 0 else 1
  {
    StatusesBumped(store.totals, Lower(r.status.GetOr("ERROR")));
  }

  lemma StatusesBumped(totals: map<string, nat>, key: string)
    ensures Sum(Statuses(Bump(Bump(totals, "total"), key))) == Sum(Statuses(totals)) + if key == "total" then 0 else 1
  {
    var after := Bump(Bump(totals, "total"), key);
    if key == "total" {
      assert Statuses(after) == Statuses(totals);
    } else {
      assert Statuses(after) == Bump(Statuses(totals), key);
      SumBump(Statuses(totals), key);
    }
  }

  lemma PersistAgrees(store: Store, r: Reported, id: string)
    requires Agrees(store)
    ensures Agrees(Persist(store, r, id))
  {
    if id !in store.table {
      PersistRows(store, r, id, "total");
      PersistSum(store, r, id);
      PersistTotal(store, r, id);
      forall key | key != "total"
        ensures Count(Persist(store, r, id).totals, key) == |WithStatus(Persist(store, r, id), key)|
      {
        PersistStatus(store, r, id, key);
      }
    }
  }

  lemma PersistTotal(store: Store, r: Reported, id: string)
    requires id !in store.table && Count(store.totals, "total") == |Mine(store)| + |WithStatus(store, "total")|
    ensures var after := Persist(store, r, id);
            Count(after.totals, "total") == |Mine(after)| + |WithStatus(after, "total")|
  {
    PersistRows(store, r, id, "total");
  }

  lemma PersistStatus(store: Store, r: Reported, id: string, key: string)
    requires id !in store.table && key != "total" && Count(store.totals, key) == |WithStatus(store, key)|
    ensures var after := Persist(store, r, id);
            Count(after.totals, key) == |WithStatus(after, key)|
  {
    PersistRows(store, r, id, key);
  }

  /** A result of this run, with the two random ids it may draw; or another run's insert. */
  datatype Occurrence =
    | Result(r: Reported, uuid1: string, uuid2: string)
    | Elsewhere(id: string, row: ResultRow)

  function Happen(store: Store, o: Occurrence): Store {
    match o
    case Result(r, uuid1, uuid2) => Persist(store, r, ChosenId(store, r, uuid1, uuid2))
    case Elsewhere(id, row) =>
      if row.run == store.run || id in store.table then store else store.(table := store.table[id := row])
  }

  function HappenAll(store: Store, os: seq<Occurrence>): Store
    decreases os
  {
    if os == [] then store else HappenAll(Happen(store, os[0]), os[1..])
  }

  lemma ElsewhereAgrees(store: Store, id: string, row: ResultRow)
    requires Agrees(store) && row.run != store.run && id !in store.table
    ensures Agrees(store.(table := store.table[id := row]))
  {
    var after := store.(table := store.table[id := row]);
    assert Mine(after) == Mine(store);
    forall key ensures WithStatus(after, key) == WithStatus(store, key) {
    }
  }

  /** Counters agree with the table after every sequence of results, repeated and missing ids
      included, interleaved with other runs' inserts: each status entry is that status's own
      row count; and `total` is the row count, which the status entries sum to, exactly as
      long as no result's status lowercases to "total". */
  lemma {:induction false} CountersAgree(store: Store, os: seq<Occurrence>)
    requires Agrees(store)
    ensures var s := HappenAll(store, os);
            && Agrees(s) && s.run == store.run
            && (Count(s.totals, "total") == |Mine(s)| <==> WithStatus(s, "total") == {})
            && (Sum(Statuses(s.totals)) == |Mine(s)| <==> WithStatus(s, "total") == {})
            && (forall id :: id in store.table ==> id in s.table && s.table[id] == store.table[id])
    decreases os
  {
    if os != [] {
      HappenAgrees(store, os[0]);
      CountersAgree(Happen(store, os[0]), os[1..]);
    }
  }

  lemma HappenAgrees(store: Store, o: Occurrence)
    requires Agrees(store)
    ensures Agrees(Happen(store, o)) && Happen(store, o).run == store.run
    ensures forall id :: id in store.table ==> id in Happen(store, o).table && Happen(store, o).table[id] == store.table[id]
  {
    match o {
      case Result(r, uuid1, uuid2) => PersistAgrees(store, r, ChosenId(store, r, uuid1, uuid2));
      case Elsewhere(id, row) =>
        if row.run != store.run && id !in store.table { ElsewhereAgrees(store, id, row); }
    }
  }

  lemma FreshRunAgrees(run: string, table: map<string, ResultRow>)
    requires forall id :: id in table ==> table[id].run != run
    ensures Agrees(Store(run, table, map[]))
  {
    var s := Store(run, table, map[]);
    assert Mine(s) == {};
    forall key ensures WithStatus(s, key) == {} {
    }
  }

  /** A result is left unstored exactly when every id it may end up with is taken. */
  lemma StoredIff(store: Store, r: Reported, uuid1: string, uuid2: string)
    ensures ChosenId(store, r, uuid1, uuid2) in store.table
       <==> uuid2 in store.table
            && (if r.id.Some? && r.id.value != "" then r.id.value else uuid1) in store.table
  {
  }

  /** Which id a result ends up with: the one reported if there is one, and a random one if not,
      as long as it is unused; and the second random one otherwise. */
  lemma IdIsKept(store: Store, r: Reported, uuid1: string, uuid2: string)
    ensures r.id.GetOr("") != "" && r.id.value !in store.table ==> ChosenId(store, r, uuid1, uuid2) == r.id.value
    ensures r.id.GetOr("") == "" && uuid1 !in store.table ==> ChosenId(store, r, uuid1, uuid2) == uuid1
    ensures r.id.GetOr("") != "" && r.id.value in store.table ==> ChosenId(store, r, uuid1, uuid2) == uuid2
    ensures r.id.GetOr("") == "" && uuid1 in store.table ==> ChosenId(store, r, uuid1, uuid2) == uuid2
  {
  }

  /** What storing a result does: one row of this run is added, with the status reported or else
      "ERROR", and no other row is touched; unless the id is taken, and then nothing changes. */
  lemma OneRowIsStored(store: Store, r: Reported, id: string)
    ensures id in store.table ==> Persist(store, r, id) == store
    ensures id !in store.table ==>
              Persist(store, r, id).table
              == store.table[id := ResultRow(store.run, if r.status.Some? then r.status.value else "ERROR")]
  {
  }

  /** What goes out on the stream for a sequence of occurrences: the id and status of each
      result, stored or not. */
  function Streamed(store: Store, os: seq<Occurrence>): seq<(string, ResultRow)>
    decreases os
  {
    if os == [] then []
    else
      (match os[0]
       case Result(r, uuid1, uuid2) =>
         [(ChosenId(store, r, uuid1, uuid2), ResultRow(store.run, r.status.GetOr("ERROR")))]
       case Elsewhere(_, _) => [])
      + Streamed(Happen(store, os[0]), os[1..])
  }

  /** No random id drawn along the way was in use when it was drawn. */
  predicate FreshDraws(store: Store, os: seq<Occurrence>)
    decreases os
  {
    os == [] ||
    ((os[0].Result? ==> os[0].uuid1 !in store.table && os[0].uuid2 !in store.table)
     && FreshDraws(Happen(store, os[0]), os[1..]))
  }

  /** Every id in `ids` is new since `before`, stored in `after` with its own row, and no two
      are equal; nothing of `before` was touched. */
  ghost predicate Settled(before: map<string, ResultRow>, after: map<string, ResultRow>, ids: seq<(string, ResultRow)>) {
    && (forall id :: id in before ==> id in after && after[id] == before[id])
    && (forall i :: 0 <= i < |ids| ==> ids[i].0 !in before && ids[i].0 in after && after[ids[i].0] == ids[i].1)
    && (forall i, j :: 0 <= i < j < |ids| ==> ids[i].0 != ids[j].0)
  }

  lemma SettledCons(before: map<string, ResultRow>, after: map<string, ResultRow>, id: string, row: ResultRow,
                    ids: seq<(string, ResultRow)>)
    requires id !in before && Settled(before[id := row], after, ids)
    ensures Settled(before, after, [(id, row)] + ids)
  {
    var mid := before[id := row];
    assert forall k :: k in before ==> k in mid && mid[k] == before[k];
    assert id in mid && mid[id] == row;
  }

  lemma SettledLater(before: map<string, ResultRow>, id: string, row: ResultRow, after: map<string, ResultRow>,
                     ids: seq<(string, ResultRow)>)
    requires id !in before && Settled(before[id := row], after, ids)
    ensures Settled(before, after, ids)
  {
    var mid := before[id := row];
    assert forall k :: k in before ==> k in mid && mid[k] == before[k];
  }

  /** With fresh random ids, whatever the engines repeat: every streamed result carries the id
      of the row stored for it, no two carry the same id, none carries an id that was in the
      table before, and the run gains one row per streamed result. */
  lemma {:induction false} StreamedIdsAreStored(store: Store, os: seq<Occurrence>)
    requires FreshDraws(store, os)
    ensures Settled(store.table, HappenAll(store, os).table, Streamed(store, os))
    ensures |Mine(HappenAll(store, os))| == |Mine(store)| + |Streamed(store, os)|
    decreases os
  {
    if os != [] {
      var next := Happen(store, os[0]);
      StreamedIdsAreStored(next, os[1..]);
      if os[0].Result? {
        ResultSettles(store, os[0], HappenAll(next, os[1..]), Streamed(next, os[1..]));
      } else {
        ElsewhereSettles(store, os[0], HappenAll(next, os[1..]), Streamed(next, os[1..]));
        assert [] + Streamed(next, os[1..]) == Streamed(next, os[1..]);
      }
    }
  }

  lemma ResultSettles(store: Store, o: Occurrence, after: Store, rest: seq<(string, ResultRow)>)
    requires o.Result? && o.uuid1 !in store.table && o.uuid2 !in store.table
    requires Settled(Happen(store, o).table, after.table, rest)
    requires |Mine(after)| == |Mine(Happen(store, o))| + |rest|
    ensures var entry := (ChosenId(store, o.r, o.uuid1, o.uuid2), ResultRow(store.run, o.r.status.GetOr("ERROR")));
            Settled(store.table, after.table, [entry] + rest) && |Mine(after)| == |Mine(store)| + |[entry] + rest|
  {
    var id := ChosenId(store, o.r, o.uuid1, o.uuid2);
    StoredIff(store, o.r, o.uuid1, o.uuid2);
    PersistRows(store, o.r, id, "total");
    SettledCons(store.table, after.table, id, ResultRow(store.run, o.r.status.GetOr("ERROR")), rest);
  }

  lemma ElsewhereSettles(store: Store, o: Occurrence, after: Store, rest: seq<(string, ResultRow)>)
    requires o.Elsewhere? && Settled(Happen(store, o).table, after.table, rest)
    requires |Mine(after)| == |Mine(Happen(store, o))| + |rest|
    ensures Settled(store.table, after.table, rest) && |Mine(after)| == |Mine(store)| + |rest|
  {
    assert Mine(Happen(store, o)) == Mine(store);
    if Happen(store, o) != store {
      SettledLater(store.table, o.id, o.row, after.table, rest);
    }
  }
}
