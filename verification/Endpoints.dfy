/** Endpoints and the one active model. */
module Endpoints {
  import opened Ordering
  import opened Folds

  type Id = string

  /** An endpoint; `details` stands for the fields that activation does not touch. */
  datatype Endpoint = Endpoint(
    id: Id, details: string, models: seq<string>, active: Option<string>, isDefault: bool)

  datatype State = State(records: map<Id, Endpoint>, index: seq<Id>)

  const EMPTY := State(map[], [])

  /** An update; `None` leaves a field alone. */
  datatype Change = Change(details: Option<string>, models: Option<seq<string>>, isDefault: Option<bool>)

  /** Python's truth of an optional string. */
  predicate Truthy(a: Option<string>) {
    a.Some? && a.value != []
  }

  function Cleared(e: Endpoint): Endpoint {
    if e.isDefault || Truthy(e.active) then e.(isDefault := false, active := None) else e
  }

  /** `_clear_all_active`: the endpoints that the index lists. */
  function ClearAll(s: State): State {
    s.(records := map id | id in s.records :: if id in s.index then Cleared(s.records[id]) else s.records[id])
  }

  function Persist(s: State, e: Endpoint): State {
    s.(records := s.records[e.id := e])
  }

  function Created(id: Id, details: string, models: seq<string>, isDefault: bool): Endpoint {
    Endpoint(id, details, models, if isDefault && models != [] then Some(models[0]) else None, isDefault)
  }

  function Create(s: State, id: Id, details: string, models: seq<string>, isDefault: bool): State {
    var c := Persist(if isDefault then ClearAll(s) else s, Created(id, details, models, isDefault));
    c.(index := c.index + [id])
  }

  function WithDetails(e: Endpoint, details: Option<string>): Endpoint {
    if details.Some? then e.(details := details.value) else e
  }

  /** New models drop an active model that is not among them. */
  function WithModels(e: Endpoint, models: Option<seq<string>>): Endpoint {
    if models.None? then e
    else
      var n := e.(models := models.value);
      if Truthy(n.active) && n.active.value !in n.models then n.(active := None) else n
  }

  /** Making it the default keeps its active model if it is one of its models, and else takes the first. */
  function WithDefault(e: Endpoint, isDefault: Option<bool>): Endpoint {
    if isDefault == Some(true) then
      e.(isDefault := true,
         active := if e.models == [] then None
           else if !Truthy(e.active) || e.active.value !in e.models then Some(e.models[0])
           else e.active)
    else if isDefault == Some(false) then e.(isDefault := false, active := None)
    else e
  }

  function Updated(e: Endpoint, c: Change): Endpoint {
    WithDefault(WithModels(WithDetails(e, c.details), c.models), c.isDefault)
  }

  function Update(s: State, id: Id, c: Change): State {
    if id !in s.records then s
    else Persist(if c.isDefault == Some(true) then ClearAll(s) else s, Updated(s.records[id], c))
  }

  /** `index.remove`: the first entry that is `id`. */
  function Remove(index: seq<Id>, id: Id): seq<Id> {
    if index == [] then [] else if index[0] == id then index[1..] else [index[0]] + Remove(index[1..], id)
  }

  function Delete(s: State, id: Id): State {
    if id !in s.records then s else State(s.records - {id}, Remove(s.index, id))
  }

  predicate CanActivate(s: State, id: Id, model: string) {
    id in s.records && model in s.records[id].models
  }

  function Activate(s: State, id: Id, model: string): State {
    if CanActivate(s, id, model) then Persist(ClearAll(s), s.records[id].(isDefault := true, active := Some(model)))
    else s
  }

  predicate IsActive(e: Endpoint) {
    e.isDefault && Truthy(e.active)
  }

  /** `get_active_endpoint_model`: the first active endpoint in the order of the index. */
  function ActivePair(records: map<Id, Endpoint>, index: seq<Id>): Option<(Id, string)> {
    if index == [] then None
    else if index[0] in records && IsActive(records[index[0]]) then Some((index[0], records[index[0]].active.value))
    else ActivePair(records, index[1..])
  }

  datatype Outcome = Activated | NotFound | NoSuchModel

  /** The manager over the stored records and the stored index. */
  class EndpointManager {
    var records: map<Id, Endpoint>
    var index: seq<Id>

    ghost function View(): State
      reads this
    {
      State(records, index)
    }

    constructor ()
      ensures View() == EMPTY
    {
      records, index := map[], [];
    }

    /** `_clear_all_active`. */
    method ClearAllActive()
      requires forall id :: id in records ==> records[id].id == id
      modifies this`records
      ensures View() == ClearAll(old(View()))
    {
      ghost var before := records;
      for i := 0 to |index|
        invariant records == map id | id in before :: if id in index[..i] then Cleared(before[id]) else before[id]
      {
        var id := index[i];
        assert index[..i + 1] == index[..i] + [id];
        if id in records && (records[id].isDefault || Truthy(records[id].active)) {
          records := records[id := records[id].(isDefault := false, active := None)];
        }
      }
      assert index[..|index|] == index;
    }

    /** `create_endpoint`; `id` is the new uuid. */
    method CreateEndpoint(id: Id, details: string, models: seq<string>, isDefault: bool)
      requires forall k :: k in records ==> records[k].id == k
      modifies this
      ensures View() == Create(old(View()), id, details, models, isDefault)
    {
      var e := Created(id, details, models, isDefault);
      if isDefault {
        ClearAllActive();
      }
      records := records[id := e];
      index := index + [id];
    }

    /** `update_endpoint`. */
    method UpdateEndpoint(id: Id, c: Change) returns (found: bool)
      requires forall k :: k in records ==> records[k].id == k
      modifies this`records
      ensures found == (id in old(records)) && View() == Update(old(View()), id, c)
    {
      if id !in records {
        return false;
      }
      var e := records[id];
      if c.details.Some? {
        e := e.(details := c.details.value);
      }
      if c.models.Some? {
        e := e.(models := c.models.value);
        if Truthy(e.active) && e.active.value !in e.models {
          e := e.(active := None);
        }
      }
      if c.isDefault == Some(true) {
        ClearAllActive();
        e := e.(isDefault := true);
        if e.models != [] {
          if !Truthy(e.active) || e.active.value !in e.models {
            e := e.(active := Some(e.models[0]));
          }
        } else {
          e := e.(active := None);
        }
      } else if c.isDefault == Some(false) {
        e := e.(isDefault := false, active := None);
      }
      records := records[id := e];
      return true;
    }

    /** `delete_endpoint`. */
    method DeleteEndpoint(id: Id) returns (found: bool)
      modifies this
      ensures found == (id in old(records)) && View() == Delete(old(View()), id)
    {
      if id !in records {
        return false;
      }
      records := records - {id};
      index := Remove(index, id);
      return true;
    }

    /** `activate_model`. */
    method ActivateModel(id: Id, model: string) returns (outcome: Outcome)
      requires forall k :: k in records ==> records[k].id == k
      modifies this`records
      ensures View() == Activate(old(View()), id, model)
      ensures outcome.Activated? <==> CanActivate(old(View()), id, model)
      ensures outcome.NotFound? <==> id !in old(records)
    {
      if id !in records {
        return NotFound;
      }
      var e := records[id];
      if model !in e.models {
        return NoSuchModel;
      }
      ClearAllActive();
      records := records[id := e.(isDefault := true, active := Some(model))];
      return Activated;
    }

    /** `get_active_endpoint_model`. */
    method GetActiveEndpointModel() returns (active: Option<(Id, string)>)
      ensures active == ActivePair(records, index)
    {
      for i := 0 to |index|
        invariant ActivePair(records, index) == ActivePair(records, index[i..])
      {
        var id := index[i];
        assert index[i..][0] == id && index[i..][1..] == index[i + 1..];
        if id in records && records[id].isDefault && Truthy(records[id].active) {
          return Some((id, records[id].active.value));
        }
      }
      return None;
    }
  }

  // ---------------------------------------------------------------- what every operation keeps

  ghost predicate IndexOk(s: State) {
    && (forall i, j :: 0 <= i < j < |s.index| ==> s.index[i] != s.index[j])
    && (forall id :: id in s.index <==> id in s.records)
  }

  /** An active model is one of the endpoint's models, and the endpoint is the default. */
  predicate EndpointOk(e: Endpoint) {
    Truthy(e.active) ==> e.isDefault && e.active.value in e.models
  }

  ghost predicate RecordsOk(records: map<Id, Endpoint>) {
    forall id :: id in records ==> records[id].id == id && EndpointOk(records[id])
  }

  ghost predicate OneDefault(records: map<Id, Endpoint>) {
    forall a, b :: a in records && b in records && records[a].isDefault && records[b].isDefault ==> a == b
  }

  ghost predicate Inv(s: State) {
    IndexOk(s) && RecordsOk(s.records) && OneDefault(s.records)
  }

  lemma ClearedAll(s: State)
    requires Inv(s)
    ensures Inv(ClearAll(s)) && forall id :: id in s.records ==> !ClearAll(s).records[id].isDefault
  {
  }

  /** One more default after all were cleared. */
  lemma PersistKeeps(s: State, e: Endpoint)
    requires RecordsOk(s.records) && OneDefault(s.records) && EndpointOk(e)
    requires e.isDefault ==> forall id :: id in s.records && id != e.id ==> !s.records[id].isDefault
    ensures RecordsOk(Persist(s, e).records) && OneDefault(Persist(s, e).records)
  {
  }

  lemma CreateKeeps(s: State, id: Id, details: string, models: seq<string>, isDefault: bool)
    requires Inv(s) && id !in s.records
    ensures Inv(Create(s, id, details, models, isDefault))
  {
    ClearedAll(s);
    PersistKeeps(if isDefault then ClearAll(s) else s, Created(id, details, models, isDefault));
  }

  lemma UpdateKeeps(s: State, id: Id, c: Change)
    requires Inv(s)
    ensures Inv(Update(s, id, c))
  {
    ClearedAll(s);
    if id in s.records {
      PersistKeeps(if c.isDefault == Some(true) then ClearAll(s) else s, Updated(s.records[id], c));
    }
  }

  lemma {:induction false} RemoveExact(index: seq<Id>, id: Id)
    requires forall i, j :: 0 <= i < j < |index| ==> index[i] != index[j]
    ensures forall i, j :: 0 <= i < j < |Remove(index, id)| ==> Remove(index, id)[i] != Remove(index, id)[j]
    ensures forall x :: x in Remove(index, id) <==> x in index && x != id
  {
    if index != [] {
      RemoveExact(index[1..], id);
      assert index == [index[0]] + index[1..] && index[0] !in index[1..];
      var rest := Remove(index[1..], id);
      forall k | 0 <= k < |rest| ensures rest[k] != index[0] {
        assert rest[k] in rest;
      }
    }
  }

  lemma DeleteKeeps(s: State, id: Id)
    requires Inv(s)
    ensures Inv(Delete(s, id))
  {
    RemoveExact(s.index, id);
  }

  lemma ActivateKeeps(s: State, id: Id, model: string)
    requires Inv(s)
    ensures Inv(Activate(s, id, model))
  {
    ClearedAll(s);
    if CanActivate(s, id, model) {
      PersistKeeps(ClearAll(s), s.records[id].(isDefault := true, active := Some(model)));
    }
  }

  datatype Op =
    | DoCreate(id: Id, details: string, models: seq<string>, isDefault: bool)
    | DoUpdate(id: Id, change: Change)
    | DoDelete(id: Id)
    | DoActivate(id: Id, model: string)

  /** One operation at a time; a created id is a new one. */
  function Next(s: State, op: Op): State {
    match op
    case DoCreate(id, details, models, isDefault) =>
      if id in s.records then s else Create(s, id, details, models, isDefault)
    case DoUpdate(id, c) => Update(s, id, c)
    case DoDelete(id) => Delete(s, id)
    case DoActivate(id, model) => Activate(s, id, model)
  }

  /** After any operations from an empty store: the index lists exactly the records, without repeats; at most one
      endpoint is the default; an active model belongs to the default endpoint and is one of its models. */
  lemma RunsKeep(ops: seq<Op>)
    ensures Inv(Fold(Next, EMPTY, ops))
  {
    forall s, op | Inv(s) ensures Inv(Next(s, op)) {
      match op
      case DoCreate(id, details, models, isDefault) =>
        if id !in s.records { CreateKeeps(s, id, details, models, isDefault); }
      case DoUpdate(id, c) => UpdateKeeps(s, id, c);
      case DoDelete(id) => DeleteKeeps(s, id);
      case DoActivate(id, model) => ActivateKeeps(s, id, model);
    }
    FoldKeeps(Next, Inv, (op: Op) => true, EMPTY, ops);
  }

  // ---------------------------------------------------------------- the active pair

  lemma {:induction false} ActivePairFound(records: map<Id, Endpoint>, index: seq<Id>)
    ensures ActivePair(records, index).None? <==> forall id :: id in index && id in records ==> !IsActive(records[id])
    ensures ActivePair(records, index).Some? ==>
      var (id, m) := ActivePair(records, index).value;
      id in index && id in records && IsActive(records[id]) && records[id].active == Some(m)
  {
    if index != [] {
      ActivePairFound(records, index[1..]);
      assert index == [index[0]] + index[1..];
    }
  }

  function Active(s: State): Option<(Id, string)> {
    ActivePair(s.records, s.index)
  }

  /** The active pair is the default endpoint with its active model, whatever the order of the index. */
  lemma ActiveExact(s: State, id: Id, m: string)
    requires Inv(s)
    ensures Active(s) == Some((id, m))
       <==> id in s.records && s.records[id].isDefault && m != [] && s.records[id].active == Some(m)
  {
    ActivePairFound(s.records, s.index);
    if id in s.records && IsActive(s.records[id]) {
      assert id in s.index && Active(s).Some?;
      var found := Active(s).value.0;
      assert s.records[found].isDefault && s.records[id].isDefault;
    }
  }

  /** Activating a configured model makes the pair active exactly when the model has a name; every other endpoint
      only loses its default mark and its active model. */
  lemma ActivateExact(s: State, id: Id, model: string)
    requires Inv(s) && CanActivate(s, id, model)
    ensures Active(Activate(s, id, model)) == Some((id, model)) <==> model != []
    ensures model == [] ==> Active(Activate(s, id, model)).None?
    ensures forall k :: k in s.records && k != id ==> Activate(s, id, model).records[k] == Cleared(s.records[k])
    ensures Activate(s, id, model).index == s.index
  {
    var t := Activate(s, id, model);
    ActivateKeeps(s, id, model);
    ActiveExact(t, id, model);
    ClearedAll(s);
    forall k | k in t.records && k != id ensures t.records[k] == Cleared(s.records[k]) && !IsActive(t.records[k]) {
      assert k in s.index;
    }
    ActivePairFound(t.records, t.index);
  }

  /** Deleting another endpoint leaves the active pair. */
  lemma DeleteKeepsActive(s: State, id: Id, a: Id, m: string)
    requires Inv(s) && Active(s) == Some((a, m))
    ensures Active(Delete(s, id)) == Some((a, m)) <==> id != a
  {
    ActiveExact(s, a, m);
    DeleteKeeps(s, id);
    ActiveExact(Delete(s, id), a, m);
  }

  /** Changing another endpoint leaves the active pair, unless the other is made the default. */
  lemma OthersKeepActive(s: State, id: Id, c: Change, a: Id, m: string)
    requires Inv(s) && Active(s) == Some((a, m)) && id != a && id in s.records
    ensures Active(Update(s, id, c)) == Some((a, m)) <==> c.isDefault != Some(true)
  {
    var t := Update(s, id, c);
    ActiveExact(s, a, m);
    UpdateKeeps(s, id, c);
    ActiveExact(t, a, m);
    if c.isDefault == Some(true) {
      ClearedAll(s);
      assert t.records[a] == ClearAll(s).records[a];
    } else {
      assert t.records[a] == s.records[a];
    }
  }

  /** Changing the active endpoint keeps the pair exactly when it stays the default and the model stays configured. */
  lemma ChangeKeepsActive(s: State, c: Change, a: Id, m: string)
    requires Inv(s) && Active(s) == Some((a, m))
    ensures Active(Update(s, a, c)) == Some((a, m))
       <==> c.isDefault != Some(false) && (c.models.None? || m in c.models.value)
  {
    ActiveExact(s, a, m);
    UpdateKeeps(s, a, c);
    ActiveExact(Update(s, a, c), a, m);
  }

  // ---------------------------------------------------------------- what an operation stores, field by field

  /** Another endpoint that the index lists loses default mark and active model, if it had one of them; all else of it
      stays. */
  ghost predicate OnlyCleared(e: Endpoint, n: Endpoint) {
    && n.id == e.id && n.details == e.details && n.models == e.models
    && (if e.isDefault || (e.active.Some? && e.active.value != []) then !n.isDefault && n.active.None?
        else n.isDefault == e.isDefault && n.active == e.active)
  }

  /** An update stores the details and models it brings and keeps the others; the default mark is the one it brings;
      the active model is dropped with the mark or with the model, and chosen when the endpoint is made the default. */
  lemma UpdateExact(s: State, id: Id, c: Change)
    requires Inv(s) && id in s.records
    ensures var n, e := Update(s, id, c), s.records[id];
      && n.index == s.index && n.records.Keys == s.records.Keys
      && var u := n.records[id];
         && u.id == e.id
         && u.details == (if c.details.Some? then c.details.value else e.details)
         && u.models == (if c.models.Some? then c.models.value else e.models)
         && u.isDefault == (if c.isDefault.Some? then c.isDefault.value else e.isDefault)
         && var valid := e.active.Some? && e.active.value != [] && e.active.value in u.models;
            u.active ==
              if c.isDefault == Some(false) then None
              else if c.isDefault == Some(true) then
                if u.models == [] then None else if valid then e.active else Some(u.models[0])
              else if c.models.None? || valid || !(e.active.Some? && e.active.value != []) then e.active
              else None
    ensures forall k :: k in s.records && k != id ==>
      if c.isDefault == Some(true) then OnlyCleared(s.records[k], Update(s, id, c).records[k])
      else Update(s, id, c).records[k] == s.records[k]
  {
  }

  /** A new endpoint is stored as it comes, at the end of the index; as the default it has its first model active, and
      every other endpoint is cleared. */
  lemma CreateExact(s: State, id: Id, details: string, models: seq<string>, isDefault: bool)
    requires Inv(s) && id !in s.records
    ensures var n := Create(s, id, details, models, isDefault);
      && n.index == s.index + [id] && n.records.Keys == s.records.Keys + {id}
      && n.records[id].id == id && n.records[id].details == details && n.records[id].models == models
      && n.records[id].isDefault == isDefault
      && n.records[id].active == (if isDefault && models != [] then Some(models[0]) else None)
    ensures forall k :: k in s.records ==>
      if isDefault then OnlyCleared(s.records[k], Create(s, id, details, models, isDefault).records[k])
      else Create(s, id, details, models, isDefault).records[k] == s.records[k]
  {
  }

  /** Deleting takes one endpoint from records and index; activating marks it and its model and clears every other. */
  lemma DeleteExact(s: State, id: Id)
    requires Inv(s)
    ensures Delete(s, id).records == s.records - {id}
    ensures forall k :: k in Delete(s, id).index <==> k in s.index && k != id
  {
    RemoveExact(s.index, id);
  }

  lemma ActivateStores(s: State, id: Id, model: string)
    requires Inv(s) && id in s.records && model in s.records[id].models
    ensures var n, e := Activate(s, id, model), s.records[id];
      && n.index == s.index && n.records.Keys == s.records.Keys
      && n.records[id] == Endpoint(e.id, e.details, e.models, Some(model), true)
      && forall k :: k in s.records && k != id ==> OnlyCleared(s.records[k], n.records[k])
  {
  }

  /** In every run of operations each one does what is stated above of it, in a state that keeps the invariants. */
  lemma RunsOperate(ops: seq<Op>, op: Op)
    ensures var s, n := Fold(Next, EMPTY, ops), Fold(Next, EMPTY, ops + [op]);
      && Inv(s) && Inv(n)
      && (op.DoCreate? && op.id !in s.records ==> n == Create(s, op.id, op.details, op.models, op.isDefault))
      && (op.DoUpdate? ==> n == Update(s, op.id, op.change))
      && (op.DoDelete? ==> n == Delete(s, op.id))
      && (op.DoActivate? ==> n == Activate(s, op.id, op.model))
  {
    RunsKeep(ops);
    RunsKeep(ops + [op]);
    FoldConcat(Next, EMPTY, ops, [op]);
    assert Fold(Next, Fold(Next, EMPTY, ops), [op]) == Next(Fold(Next, EMPTY, ops), op) by {
      assert [op][1..] == [];
    }
  }

  /** What is not there, or not configured, is left alone. */
  lemma NothingToDo(s: State, id: Id, c: Change, model: string)
    ensures id !in s.records ==> Update(s, id, c) == s && Delete(s, id) == s && Activate(s, id, model) == s
    ensures id in s.records && model !in s.records[id].models ==> Activate(s, id, model) == s
  {
  }
}
