/** The ML model table (app/Http/Controllers/MLModelController.php): `store`,
    `update` and `destroy` over rows whose names are unique. Each request is
    a pure transition on a `Table`, and the `ModelTable` class carries out
    the same transition in place. */
module MLModels {
  import opened Common

  const MaxNameLength: nat := 255
  const MaxDescriptionLength: nat := 1000

  datatype MLModel = MLModel(id: nat, name: string, description: Option<string>)

  datatype Table = Table(rows: seq<MLModel>, nextId: nat)

  predicate DistinctNames(rows: seq<MLModel>) {
    forall i, j :: 0 <= i < j < |rows| ==> rows[i].name != rows[j].name
  }

  predicate UniqueModelIds(rows: seq<MLModel>) {
    forall i, j :: 0 <= i < j < |rows| ==> rows[i].id != rows[j].id
  }

  /** A row that passed validation, with an id below the next one. */
  predicate RowValid(m: MLModel, nextId: nat) {
    && m.id < nextId
    && !Blank(m.name) && |m.name| <= MaxNameLength
    && (m.description.Some? ==> |m.description.value| <= MaxDescriptionLength)
  }

  predicate TableValid(t: Table) {
    && DistinctNames(t.rows)
    && UniqueModelIds(t.rows)
    && forall m :: m in t.rows ==> RowValid(m, t.nextId)
  }

  /** `unique:ml_models,name` when `except` is None, and
      `unique:ml_models,name,<id>` (ignoring the row with that id) otherwise. */
  predicate NameTaken(rows: seq<MLModel>, name: string, except: Option<nat>) {
    exists m :: m in rows && m.name == name && except != Some(m.id)
  }

  /** The validation rules shared by `store` and `update`. */
  predicate Acceptable(rows: seq<MLModel>, name: Input<string>, description: Input<string>, except: Option<nat>) {
    && RequiredString(name, MaxNameLength)
    && !NameTaken(rows, name.value, except)
    && NullableString(description, MaxDescriptionLength)
  }

  function IndexOfModel(rows: seq<MLModel>, id: nat): (k: nat)
    ensures k <= |rows|
    ensures k < |rows| ==> rows[k].id == id
    ensures k == |rows| ==> forall m :: m in rows ==> m.id != id
  {
    if rows == [] then 0
    else if rows[0].id == id then 0
    else 1 + IndexOfModel(rows[1..], id)
  }

  /** `store`: insert a validated row, or report the failure and change nothing. */
  function StoreModel(t: Table, name: Input<string>, description: Input<string>): (r: (Table, Outcome))
    ensures r.1 == Success <==> Acceptable(t.rows, name, description, None)
    ensures r.1 != Success ==> r == (t, Error)
    ensures r.1 == Success ==>
      && r.0.rows == t.rows + [MLModel(t.nextId, name.value, CreateValue(description))]
      && r.0.nextId == t.nextId + 1
    ensures TableValid(t) ==> TableValid(r.0)
  {
    if !Acceptable(t.rows, name, description, None) then (t, Error)
    else
      var m := MLModel(t.nextId, name.value, CreateValue(description));
      assert forall x :: x in t.rows ==> x.name != m.name;
      (Table(t.rows + [m], t.nextId + 1), Success)
  }

  /** `update`: change the name and, when the request carries one, the
      description of an existing row; its own name does not count as taken. */
  function UpdateModel(t: Table, id: nat, name: Input<string>, description: Input<string>): (r: (Table, Outcome))
    ensures var k := IndexOfModel(t.rows, id);
      && (k == |t.rows| ==> r == (t, NotFound))
      && (k < |t.rows| ==> (r.1 == Success <==> Acceptable(t.rows, name, description, Some(id))))
      && (k < |t.rows| && r.1 != Success ==> r == (t, Error))
      && (r.1 == Success ==>
            && r.0.rows == t.rows[k := MLModel(id, name.value, UpdateValue(description, t.rows[k].description))]
            && r.0.nextId == t.nextId)
    ensures TableValid(t) ==> TableValid(r.0)
  {
    var k := IndexOfModel(t.rows, id);
    if k == |t.rows| then (t, NotFound)
    else if !Acceptable(t.rows, name, description, Some(id)) then (t, Error)
    else
      var m := MLModel(id, name.value, UpdateValue(description, t.rows[k].description));
      var rows := t.rows[k := m];
      assert TableValid(t) ==> TableValid(Table(rows, t.nextId)) by {
        if TableValid(t) {
          forall i | 0 <= i < |t.rows| && i != k
            ensures t.rows[i].name != m.name
          {
            assert t.rows[i] in t.rows;
          }
          assert t.rows[k] in t.rows;
          assert forall x :: x in rows ==> x == m || x in t.rows;
        }
      }
      (Table(rows, t.nextId), Success)
  }

  /** `destroy`: remove the row with that id. */
  function DestroyModel(t: Table, id: nat): (r: (Table, Outcome))
    ensures var k := IndexOfModel(t.rows, id);
      && (k == |t.rows| ==> r == (t, NotFound))
      && (k < |t.rows| ==>
            && r.1 == Success
            && r.0 == Table(t.rows[..k] + t.rows[k + 1..], t.nextId))
    ensures TableValid(t) ==> TableValid(r.0)
    ensures TableValid(t) ==> forall m :: m in r.0.rows <==> m in t.rows && m.id != id
  {
    var k := IndexOfModel(t.rows, id);
    if k == |t.rows| then (t, NotFound)
    else
      var rows := t.rows[..k] + t.rows[k + 1..];
      assert TableValid(t) ==>
        TableValid(Table(rows, t.nextId)) && forall m :: m in rows <==> m in t.rows && m.id != id by {
        if TableValid(t) {
          RemoveRowKeepsTable(t, k);
        }
      }
      (Table(rows, t.nextId), Success)
  }

  /** Removing the row at `k` keeps the table valid and leaves exactly the
      rows with another id. */
  lemma RemoveRowKeepsTable(t: Table, k: nat)
    requires TableValid(t) && k < |t.rows|
    ensures var rows := t.rows[..k] + t.rows[k + 1..];
      && TableValid(Table(rows, t.nextId))
      && forall m :: m in rows <==> m in t.rows && m.id != t.rows[k].id
  {
    var rows := t.rows[..k] + t.rows[k + 1..];
    assert forall i :: 0 <= i < |rows| ==> rows[i] == t.rows[if i < k then i else i + 1];
    forall m | m in t.rows && m.id != t.rows[k].id
      ensures m in rows
    {
      var i :| 0 <= i < |t.rows| && t.rows[i] == m;
      assert rows[if i < k then i else i - 1] == m;
    }
  }

  /** A request against the model table. */
  datatype Op =
    | StoreOp(name: Input<string>, description: Input<string>)
    | UpdateOp(id: nat, name: Input<string>, description: Input<string>)
    | DestroyOp(id: nat)

  function Apply(t: Table, op: Op): (Table, Outcome) {
    match op
    case StoreOp(name, description) => StoreModel(t, name, description)
    case UpdateOp(id, name, description) => UpdateModel(t, id, name, description)
    case DestroyOp(id) => DestroyModel(t, id)
  }

  /** The table after a sequence of requests: names stay pairwise distinct
      (and ids unique) whatever the requests were. */
  function Run(t: Table, ops: seq<Op>): (r: Table)
    ensures TableValid(t) ==> TableValid(r)
    decreases |ops|
  {
    if ops == [] then t else Run(Apply(t, ops[0]).0, ops[1..])
  }

  /** `store` refuses a name that some row already has. */
  lemma StoreRejectsTakenName(t: Table, j: nat, description: Input<string>)
    requires j < |t.rows|
    ensures StoreModel(t, Given(t.rows[j].name), description) == (t, Error)
  {
    assert t.rows[j] in t.rows;
  }

  /** `update` lets a row keep its own name. */
  lemma UpdateMayKeepOwnName(t: Table, k: nat, description: Input<string>)
    requires TableValid(t)
    requires k < |t.rows|
    requires NullableString(description, MaxDescriptionLength)
    ensures UpdateModel(t, t.rows[k].id, Given(t.rows[k].name), description).1 == Success
  {
    var id := t.rows[k].id;
    assert IndexOfModel(t.rows, id) < |t.rows|;
    forall m | m in t.rows && m.name == t.rows[k].name
      ensures m.id == id
    {
      var i :| 0 <= i < |t.rows| && t.rows[i] == m;
      assert i == k;
    }
  }

  /** `update` refuses the name of another row. */
  lemma UpdateRejectsOthersName(t: Table, id: nat, j: nat, description: Input<string>)
    requires j < |t.rows| && t.rows[j].id != id
    ensures UpdateModel(t, id, Given(t.rows[j].name), description).1 != Success
  {
    assert t.rows[j] in t.rows;
  }

  /** The ml_models table, changed in place by the controller. */
  class ModelTable {
    var rows: seq<MLModel>
    var nextId: nat

    function State(): Table
      reads this
    {
      Table(rows, nextId)
    }

    ghost predicate Valid()
      reads this
    {
      TableValid(State())
    }

    constructor ()
      ensures Valid() && rows == []
    {
      rows, nextId := [], 1;
    }

    method Store(name: Input<string>, description: Input<string>) returns (outcome: Outcome)
      requires Valid()
      modifies this
      ensures Valid()
      ensures (State(), outcome) == StoreModel(old(State()), name, description)
    {
      // the expected result, unfolded on the state before the request
      ghost var expected := StoreModel(State(), name, description);
      if !Acceptable(rows, name, description, None) {
        return Error;
      }
      rows := rows + [MLModel(nextId, name.value, CreateValue(description))];
      nextId := nextId + 1;
      return Success;
    }

    method Update(id: nat, name: Input<string>, description: Input<string>) returns (outcome: Outcome)
      requires Valid()
      modifies this
      ensures Valid()
      ensures (State(), outcome) == UpdateModel(old(State()), id, name, description)
    {
      // the expected result, unfolded on the state before the request
      ghost var expected := UpdateModel(State(), id, name, description);
      var k := IndexOfModel(rows, id);
      if k == |rows| {
        return NotFound;
      }
      if !Acceptable(rows, name, description, Some(id)) {
        return Error;
      }
      rows := rows[k := MLModel(id, name.value, UpdateValue(description, rows[k].description))];
      return Success;
    }

    method Destroy(id: nat) returns (outcome: Outcome)
      requires Valid()
      modifies this
      ensures Valid()
      ensures (State(), outcome) == DestroyModel(old(State()), id)
    {
      // the expected result, unfolded on the state before the request
      ghost var expected := DestroyModel(State(), id);
      var k := IndexOfModel(rows, id);
      if k == |rows| {
        return NotFound;
      }
      rows := rows[..k] + rows[k + 1..];
      return Success;
    }
  }
}
