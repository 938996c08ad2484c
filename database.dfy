/** The ORM layer: the Experiment, Result and Param tables, the many-to-many
    links between experiments and rows, and ExperimentDB's rule for storing
    metrics and parameters (`__add_elements`): get-or-create the row, then
    link it to the experiment unless a matching row is already linked. */
module Database {
  import opened Wrappers

  // ---------------------------------------------------------------------
  // Rows, links and the specification of `__add_elements`
  // ---------------------------------------------------------------------

  /** A Result or Param row. Param rows never carry a theta. */
  datatype Row = Row(name: string, value: string, theta: Option<int>)

  /** A row of the through table: (experiment id, row id). Row ids are the
      positions in the row list. */
  type Link = (nat, nat)

  /** A model table together with its many-to-many links to experiments. */
  datatype Table = Table(rows: seq<Row>, links: set<Link>)

  const EmptyTable: Table := Table([], {})

  /** Every link points at an existing row. */
  predicate LinksValid(t: Table) {
    forall l :: l in t.links ==> l.1 < |t.rows|
  }

  /** No two rows are equal. */
  predicate DistinctRows(rows: seq<Row>) {
    forall i, j :: 0 <= i < j < |rows| ==> rows[i] != rows[j]
  }

  /** The lookup filter: name and value, and theta only when one is given. */
  predicate Matches(row: Row, name: string, value: string, theta: Option<int>) {
    row.name == name && row.value == value && (theta.Some? ==> row.theta == theta)
  }

  /** `get_or_none`: the id of the first matching row, if any. */
  function FindRow(rows: seq<Row>, name: string, value: string, theta: Option<int>): (r: Option<nat>)
    ensures r.Some? ==> r.value < |rows| && Matches(rows[r.value], name, value, theta)
    ensures r.Some? ==> forall j :: 0 <= j < r.value ==> !Matches(rows[j], name, value, theta)
    ensures r.None? ==> forall j :: 0 <= j < |rows| ==> !Matches(rows[j], name, value, theta)
  {
    if rows == [] then None
    else if Matches(rows[0], name, value, theta) then Some(0)
    else match FindRow(rows[1..], name, value, theta)
      case None => None
      case Some(i) => Some(i + 1)
  }

  /** The link query: the experiment is already linked to a matching row. */
  predicate HasLinkedMatch(t: Table, exp: nat, name: string, value: string, theta: Option<int>) {
    exists l :: l in t.links && l.0 == exp && l.1 < |t.rows| && Matches(t.rows[l.1], name, value, theta)
  }

  /** One entry of `__add_elements`: the row found, or else a new row carrying
      exactly the given theta; then a link from the experiment to that row
      unless a matching row is already linked. */
  function AddOne(t: Table, exp: nat, name: string, value: string, theta: Option<int>): Table {
    var found := FindRow(t.rows, name, value, theta);
    var rows := if found.Some? then t.rows else t.rows + [Row(name, value, theta)];
    var element := if found.Some? then found.value else |t.rows|;
    if HasLinkedMatch(Table(rows, t.links), exp, name, value, theta) then Table(rows, t.links)
    else Table(rows, t.links + {(exp, element)})
  }

  /** `__add_elements` over the dictionary's items, in iteration order. */
  function AddAll(t: Table, exp: nat, data: seq<(string, string)>, theta: Option<int>): Table {
    if data == [] then t
    else
      var k := |data| - 1;
      AddOne(AddAll(t, exp, data[..k], theta), exp, data[k].0, data[k].1, theta)
  }

  /** As written, `element` is the lookup's result even when a row was just
      created (the value `create` returns is dropped), so the row handed to
      `table.add` is None exactly when the row is new. */
  function LinkElementAsWritten(t: Table, name: string, value: string, theta: Option<int>): Option<nat> {
    FindRow(t.rows, name, value, theta)
  }

  /** For a new row the as-written element is None, while the corrected rule
      links the new row to the experiment. */
  lemma LinkElementAsWrittenMissesNewRow(t: Table, exp: nat, name: string, value: string, theta: Option<int>)
    requires FindRow(t.rows, name, value, theta).None?
    ensures LinkElementAsWritten(t, name, value, theta).None?
    ensures (exp, |t.rows|) in AddOne(t, exp, name, value, theta).links
    ensures AddOne(t, exp, name, value, theta).rows[|t.rows|] == Row(name, value, theta)
  {
  }

  // ---------------------------------------------------------------------
  // Properties of one entry
  // ---------------------------------------------------------------------

  /** Without theta the lookup ignores the rows' theta: it finds a row exactly
      when some row has the name and value. */
  lemma LookupWithoutThetaIgnoresTheta(rows: seq<Row>, name: string, value: string)
    ensures FindRow(rows, name, value, None).Some? <==>
      exists j :: 0 <= j < |rows| && rows[j].name == name && rows[j].value == value
  {
    var r := FindRow(rows, name, value, None);
    if r.Some? {
      assert rows[r.value].name == name && rows[r.value].value == value;
    }
  }

  /** A row is created only when none matches, and then it is the given
      (name, value, theta): the earlier rows are kept as they were, and the
      links only gain a link of this experiment. */
  lemma AddOneShape(t: Table, exp: nat, name: string, value: string, theta: Option<int>)
    ensures var u := AddOne(t, exp, name, value, theta);
      (exists j :: 0 <= j < |t.rows| && Matches(t.rows[j], name, value, theta)) <==> u.rows == t.rows
    ensures var u := AddOne(t, exp, name, value, theta);
      u.rows == t.rows || u.rows == t.rows + [Row(name, value, theta)]
    ensures var u := AddOne(t, exp, name, value, theta);
      t.links <= u.links && forall l :: l in u.links - t.links ==> l.0 == exp
  {
    var found := FindRow(t.rows, name, value, theta);
    if found.Some? {
      assert Matches(t.rows[found.value], name, value, theta);
    } else {
      assert |t.rows + [Row(name, value, theta)]| != |t.rows|;
    }
  }

  /** Links keep pointing at existing rows. */
  lemma AddOneKeepsLinksValid(t: Table, exp: nat, name: string, value: string, theta: Option<int>)
    requires LinksValid(t)
    ensures LinksValid(AddOne(t, exp, name, value, theta))
  {
  }

  /** No duplicate of an existing row is ever created. */
  lemma AddOneKeepsRowsDistinct(t: Table, exp: nat, name: string, value: string, theta: Option<int>)
    requires DistinctRows(t.rows)
    ensures DistinctRows(AddOne(t, exp, name, value, theta).rows)
  {
    var found := FindRow(t.rows, name, value, theta);
    if found.None? {
      var rows := t.rows + [Row(name, value, theta)];
      forall i, j | 0 <= i < j < |rows| ensures rows[i] != rows[j] {
        if j == |t.rows| {
          assert !Matches(t.rows[i], name, value, theta);
        } else {
          assert rows[i] == t.rows[i] && rows[j] == t.rows[j];
        }
      }
    }
  }

  /** An entry is settled in a table when the lookup finds a row and the
      experiment is linked to a matching row. */
  predicate Settled(t: Table, exp: nat, name: string, value: string, theta: Option<int>) {
    FindRow(t.rows, name, value, theta).Some? && HasLinkedMatch(t, exp, name, value, theta)
  }

  /** After one entry is added, it is settled. */
  lemma AddOneSettles(t: Table, exp: nat, name: string, value: string, theta: Option<int>)
    ensures Settled(AddOne(t, exp, name, value, theta), exp, name, value, theta)
  {
    var u := AddOne(t, exp, name, value, theta);
    var found := FindRow(t.rows, name, value, theta);
    var element := if found.Some? then found.value else |t.rows|;
    assert element < |u.rows| && Matches(u.rows[element], name, value, theta);
    if !HasLinkedMatch(Table(u.rows, t.links), exp, name, value, theta) {
      assert (exp, element) in u.links;
    }
  }

  /** Adding a settled entry changes nothing: repeated calls add no rows and
      no links. */
  lemma SettledIsFixpoint(t: Table, exp: nat, name: string, value: string, theta: Option<int>)
    requires Settled(t, exp, name, value, theta)
    ensures AddOne(t, exp, name, value, theta) == t
  {
  }

  /** Adding one entry keeps every other settled entry settled: rows are only
      appended and links only added. */
  lemma AddOneKeepsSettled(t: Table, exp: nat, name: string, value: string, theta: Option<int>,
                           name2: string, value2: string)
    requires Settled(t, exp, name2, value2, theta)
    ensures Settled(AddOne(t, exp, name, value, theta), exp, name2, value2, theta)
  {
    var u := AddOne(t, exp, name, value, theta);
    AddOneShape(t, exp, name, value, theta);
    var i := FindRow(t.rows, name2, value2, theta).value;
    assert u.rows[i] == t.rows[i];
    var l :| l in t.links && l.0 == exp && l.1 < |t.rows| && Matches(t.rows[l.1], name2, value2, theta);
    assert l in u.links && u.rows[l.1] == t.rows[l.1];
  }

  // ---------------------------------------------------------------------
  // Properties of a whole dictionary
  // ---------------------------------------------------------------------

  /** After `__add_elements`, every entry of the dictionary is settled. */
  lemma {:induction false} AddAllSettles(t: Table, exp: nat, data: seq<(string, string)>, theta: Option<int>)
    ensures forall k :: 0 <= k < |data| ==> Settled(AddAll(t, exp, data, theta), exp, data[k].0, data[k].1, theta)
  {
    if data != [] {
      var n := |data| - 1;
      var before := AddAll(t, exp, data[..n], theta);
      AddAllSettles(t, exp, data[..n], theta);
      forall k | 0 <= k < |data|
        ensures Settled(AddAll(t, exp, data, theta), exp, data[k].0, data[k].1, theta)
      {
        if k == n {
          AddOneSettles(before, exp, data[n].0, data[n].1, theta);
        } else {
          assert data[..n][k] == data[k];
          AddOneKeepsSettled(before, exp, data[n].0, data[n].1, theta, data[k].0, data[k].1);
        }
      }
    }
  }

  /** Entries that are all settled change nothing. */
  lemma {:induction false} AddAllOfSettled(t: Table, exp: nat, data: seq<(string, string)>, theta: Option<int>)
    requires forall k :: 0 <= k < |data| ==> Settled(t, exp, data[k].0, data[k].1, theta)
    ensures AddAll(t, exp, data, theta) == t
  {
    if data != [] {
      var n := |data| - 1;
      assert forall k :: 0 <= k < n ==> data[..n][k] == data[k];
      AddAllOfSettled(t, exp, data[..n], theta);
      SettledIsFixpoint(t, exp, data[n].0, data[n].1, theta);
    }
  }

  /** Adding the same dictionary twice is the same as adding it once. */
  lemma AddAllIdempotent(t: Table, exp: nat, data: seq<(string, string)>, theta: Option<int>)
    ensures AddAll(AddAll(t, exp, data, theta), exp, data, theta) == AddAll(t, exp, data, theta)
  {
    AddAllSettles(t, exp, data, theta);
    AddAllOfSettled(AddAll(t, exp, data, theta), exp, data, theta);
  }

  /** Links stay valid and rows stay distinct over a whole dictionary. */
  lemma {:induction false} AddAllKeepsInvariants(t: Table, exp: nat, data: seq<(string, string)>, theta: Option<int>)
    requires LinksValid(t) && DistinctRows(t.rows)
    ensures LinksValid(AddAll(t, exp, data, theta)) && DistinctRows(AddAll(t, exp, data, theta).rows)
  {
    if data != [] {
      var n := |data| - 1;
      AddAllKeepsInvariants(t, exp, data[..n], theta);
      AddOneKeepsLinksValid(AddAll(t, exp, data[..n], theta), exp, data[n].0, data[n].1, theta);
      AddOneKeepsRowsDistinct(AddAll(t, exp, data[..n], theta), exp, data[n].0, data[n].1, theta);
    }
  }

  /** Rows without theta: the state of the Param table. */
  predicate ThetaFree(t: Table) {
    forall i :: 0 <= i < |t.rows| ==> t.rows[i].theta.None?
  }

  /** Adding without theta keeps a table free of theta; in particular the
      Param table, which `add_params` never gives a theta, stays so. */
  lemma {:induction false} AddAllWithoutThetaKeepsThetaFree(t: Table, exp: nat, data: seq<(string, string)>)
    requires ThetaFree(t)
    ensures ThetaFree(AddAll(t, exp, data, None))
  {
    if data != [] {
      var n := |data| - 1;
      AddAllWithoutThetaKeepsThetaFree(t, exp, data[..n]);
      AddOneShape(AddAll(t, exp, data[..n], None), exp, data[n].0, data[n].1, None);
    }
  }

  /** Only the experiment's own links change: links of other experiments are
      exactly the ones there were. */
  lemma {:induction false} AddAllTouchesOnlyItsExperiment(t: Table, exp: nat, data: seq<(string, string)>,
                                                         theta: Option<int>, other: nat)
    requires other != exp
    ensures forall j: nat :: (other, j) in AddAll(t, exp, data, theta).links <==> (other, j) in t.links
  {
    if data != [] {
      var n := |data| - 1;
      AddAllTouchesOnlyItsExperiment(t, exp, data[..n], theta, other);
      AddOneShape(AddAll(t, exp, data[..n], theta), exp, data[n].0, data[n].1, theta);
    }
  }

  // ---------------------------------------------------------------------
  // The tables as mutable objects
  // ---------------------------------------------------------------------

  /** A peewee model class with its through table: rows are appended by
      `create` and links added by `table.add`. */
  class TableStore {
    var rows: seq<Row>
    var links: set<Link>

    function Contents(): Table
      reads this
    {
      Table(rows, links)
    }

    constructor()
      ensures Contents() == EmptyTable
    {
      rows, links := [], {};
    }

    /** `get_or_none`: scans the rows in id order. */
    method GetOrNone(name: string, value: string, theta: Option<int>) returns (r: Option<nat>)
      ensures r == FindRow(rows, name, value, theta)
    {
      var i := 0;
      while i < |rows|
        invariant 0 <= i <= |rows|
        invariant forall j :: 0 <= j < i ==> !Matches(rows[j], name, value, theta)
      {
        if Matches(rows[i], name, value, theta) {
          return Some(i);
        }
        i := i + 1;
      }
      return None;
    }

    /** `create`: appends a row and returns its id. */
    method Create(row: Row) returns (id: nat)
      modifies this
      ensures rows == old(rows) + [row] && links == old(links)
      ensures id == |old(rows)|
    {
      id := |rows|;
      rows := rows + [row];
    }

    /** `table.add`: links the row to the experiment. */
    method Link(exp: nat, id: nat)
      modifies this
      ensures rows == old(rows) && links == old(links) + {(exp, id)}
    {
      links := links + {(exp, id)};
    }

    /** `clear`: the table of a freshly created database file. */
    method Clear()
      modifies this
      ensures Contents() == EmptyTable
    {
      rows, links := [], {};
    }
  }

  /** `__add_elements`: for each item in order, get or create the row, then
      link it to the experiment unless a matching row is already linked. */
  method AddElements(table: TableStore, data: seq<(string, string)>, exp: nat, theta: Option<int>)
    modifies table
    ensures table.Contents() == AddAll(old(table.Contents()), exp, data, theta)
  {
    var i := 0;
    while i < |data|
      invariant 0 <= i <= |data|
      invariant table.Contents() == AddAll(old(table.Contents()), exp, data[..i], theta)
    {
      var (name, value) := data[i];
      ghost var before := table.Contents();
      var element := table.GetOrNone(name, value, theta);
      var id: nat;
      if element.None? {
        id := table.Create(Row(name, value, theta));
      } else {
        id := element.value;
      }
      if !HasLinkedMatch(table.Contents(), exp, name, value, theta) {
        table.Link(exp, id);
      }
      assert data[..i + 1][..i] == data[..i];
      assert table.Contents() == AddOne(before, exp, name, value, theta);
      i := i + 1;
    }
    assert data[..i] == data;
  }

  // ---------------------------------------------------------------------
  // ExperimentDB
  // ---------------------------------------------------------------------

  /** A row of the Experiment table. */
  datatype ExperimentRecord = ExperimentRecord(startDate: int, endDate: int, randomState: int,
                                               folderPath: string, description: string)

  /** The experiment object the database functions are handed: the fields the
      Experiment row is built from, and `db_object`, set by `add_experiment`. */
  class RunHandle {
    const startTime: int
    const endTime: int
    const randomState: int
    const path: string
    const description: string
    var dbObject: Option<nat>

    constructor(startTime: int, endTime: int, randomState: int, path: string, description: string)
      ensures this.startTime == startTime && this.endTime == endTime && this.randomState == randomState
      ensures this.path == path && this.description == description && dbObject.None?
    {
      this.startTime, this.endTime, this.randomState := startTime, endTime, randomState;
      this.path, this.description := path, description;
      dbObject := None;
    }

    function Record(): ExperimentRecord {
      ExperimentRecord(startTime, endTime, randomState, path, description)
    }
  }

  /** `None` stands for an omitted dictionary, which is read as empty. */
  function OrEmpty(data: Option<seq<(string, string)>>): (r: seq<(string, string)>)
    ensures data.Some? ==> r == data.value
    ensures data.None? ==> r == []
  {
    if data.Some? then data.value else []
  }

  /** The database: whether `start` has bound it to a file (the module's
      SqliteDatabase(None) is deferred until then), the Experiment rows (the
      id of an experiment is its position) and the Result and Param tables. */
  class ExperimentDB {
    var started: bool
    var experiments: seq<ExperimentRecord>
    const results: TableStore
    const params: TableStore

    predicate Valid()
      reads this
    {
      results != params
    }

    constructor()
      ensures Valid() && fresh(results) && fresh(params)
      ensures !started && experiments == []
      ensures results.Contents() == EmptyTable && params.Contents() == EmptyTable
    {
      started, experiments := false, [];
      results := new TableStore();
      params := new TableStore();
    }

    /** `start`: binds the database to the file at the path. An existing file
        is read with the tables and rows it holds; for a new file the tables
        are created, empty. */
    method Start(fileExisted: bool)
      requires Valid()
      modifies this, results, params
      ensures started
      ensures fileExisted ==> (experiments == old(experiments) &&
        results.Contents() == old(results.Contents()) && params.Contents() == old(params.Contents()))
      ensures !fileExisted ==> (experiments == [] &&
        results.Contents() == EmptyTable && params.Contents() == EmptyTable)
    {
      started := true;
      if !fileExisted {
        experiments := [];
        results.Clear();
        params.Clear();
      }
    }

    /** `add_experiment`: inserts the Experiment row, stores it in
        `db_object`, then adds the parameters and the metrics (without theta);
        an omitted dictionary adds nothing. Before `start` the insert raises
        InterfaceError and nothing changes. */
    method AddExperiment(run: RunHandle, newParams: Option<seq<(string, string)>>,
                         newResults: Option<seq<(string, string)>>) returns (r: Result<()>)
      requires Valid()
      modifies this, run, results, params
      ensures started == old(started) && (r.Ok? <==> started)
      ensures !started ==> (experiments == old(experiments) && run.dbObject == old(run.dbObject) &&
        params.Contents() == old(params.Contents()) && results.Contents() == old(results.Contents()))
      ensures started ==> (experiments == old(experiments) + [run.Record()] &&
        run.dbObject == Some(|old(experiments)|))
      ensures started ==>
        params.Contents() == AddAll(old(params.Contents()), |old(experiments)|, OrEmpty(newParams), None)
      ensures started ==>
        results.Contents() == AddAll(old(results.Contents()), |old(experiments)|, OrEmpty(newResults), None)
    {
      if !started {
        return Err(NotStarted);
      }
      var id := |experiments|;
      experiments := experiments + [run.Record()];
      run.dbObject := Some(id);
      r := AddParams(run, OrEmpty(newParams));
      r := AddMetrics(run, OrEmpty(newResults), None);
    }

    /** `add_metrics`: adds to the Result table with the given theta. An
        experiment never added has no `db_object`, and the call fails, as it
        does before `start`. */
    method AddMetrics(run: RunHandle, data: seq<(string, string)>, theta: Option<int>) returns (r: Result<()>)
      requires Valid()
      modifies results
      ensures r.Ok? <==> run.dbObject.Some? && started
      ensures r.Err? ==> results.Contents() == old(results.Contents())
      ensures r.Ok? ==> results.Contents() == AddAll(old(results.Contents()), run.dbObject.value, data, theta)
    {
      if run.dbObject.None? {
        return Err(AttributeError("db_object"));
      }
      if !started {
        return Err(NotStarted);
      }
      AddElements(results, data, run.dbObject.value, theta);
      return Ok(());
    }

    /** `add_params`: adds to the Param table, never with a theta. */
    method AddParams(run: RunHandle, data: seq<(string, string)>) returns (r: Result<()>)
      requires Valid()
      modifies params
      ensures r.Ok? <==> run.dbObject.Some? && started
      ensures r.Err? ==> params.Contents() == old(params.Contents())
      ensures r.Ok? ==> params.Contents() == AddAll(old(params.Contents()), run.dbObject.value, data, None)
    {
      if run.dbObject.None? {
        return Err(AttributeError("db_object"));
      }
      if !started {
        return Err(NotStarted);
      }
      AddElements(params, data, run.dbObject.value, None);
      return Ok(());
    }
  }

  /** What peewee raises for a query on the deferred database before `start`. */
  const NotStarted: Exception := InterfaceError("Error, database must be initialized before opening a connection.")
}
