/** The migration steps that collapse duplicates and then build a unique index. */
module Schema {
  import opened Common
  import opened KeyedTable
  import opened Environments
  import TextOrder

  datatype Profile = Profile(workspaceId: string, enabled: bool, settings: string)

  type Profiles = map<string, Profile>
  type Details = map<int, Row<string, string>>

  predicate IdLess(a: string, b: string) {
    TextOrder.Less(a, b)
  }

  predicate RowidLess(a: int, b: int) {
    a < b
  }

  lemma IdOrder()
    ensures TotalOrder(IdLess)
  {
    forall a, b | IdLess(a, b) ensures !IdLess(b, a) {
      TextOrder.Asymmetric(a, b);
    }
    forall a, b ensures a == b || IdLess(a, b) || IdLess(b, a) {
      TextOrder.Total(a, b);
    }
    forall a, b, c | IdLess(a, b) && IdLess(b, c) ensures IdLess(a, c) {
      TextOrder.Transitive(a, b, c);
    }
  }

  // ---- Throttle profiles: disabling instead of deleting ----

  /** The rows of the partial index: enabled profiles by workspace. */
  function Enabled(p: Profiles): map<string, Row<string, ()>> {
    map i | i in p && p[i].enabled :: Row(p[i].workspaceId, ())
  }

  ghost predicate OneEnabled(p: Profiles) {
    Unique(Enabled(p))
  }

  /** UPDATE … SET enabled = 0 WHERE enabled = 1 AND id NOT IN (minimum enabled ids) */
  function DisableExtra(p: Profiles): Profiles {
    map i | i in p ::
      if p[i].enabled && !IsGroupMin(Enabled(p), IdLess, i) then p[i].(enabled := false) else p[i]
  }

  /** On the enabled rows, disabling is the same collapse as deleting. */
  lemma DisablingCollapses(p: Profiles)
    ensures Enabled(DisableExtra(p)) == Collapse(Enabled(p), IdLess)
  {
  }

  /** Each workspace with an enabled profile keeps exactly its smallest one enabled, and
      nothing but the enabled flag of the others changes. */
  lemma DisableExtraKeepsMinimum(p: Profiles, workspaceId: string) returns (least: string)
    requires exists i :: i in p && p[i].enabled && p[i].workspaceId == workspaceId
    ensures least in p && p[least].enabled && p[least].workspaceId == workspaceId
    ensures forall i :: i in p && p[i].enabled && p[i].workspaceId == workspaceId ==> i == least || IdLess(least, i)
    ensures forall i :: i in p && p[i].workspaceId == workspaceId ==> DisableExtra(p)[i] == p[i].(enabled := i == least)
    ensures DisableExtra(p).Keys == p.Keys
  {
    var i :| i in p && p[i].enabled && p[i].workspaceId == workspaceId;
    assert i in Enabled(p) && Enabled(p)[i].key == workspaceId;
    IdOrder();
    least := CollapseKeepsMinimum(Enabled(p), IdLess, workspaceId);
    assert least in Group(Collapse(Enabled(p), IdLess), workspaceId);
    forall j | j in p && p[j].workspaceId == workspaceId ensures DisableExtra(p)[j] == p[j].(enabled := j == least) {
      if p[j].enabled && IsGroupMin(Enabled(p), IdLess, j) {
        assert j in Group(Collapse(Enabled(p), IdLess), workspaceId);
      }
    }
  }

  lemma DisableExtraIsUnique(p: Profiles)
    ensures OneEnabled(DisableExtra(p))
  {
    IdOrder();
    DisablingCollapses(p);
    CollapseIsUnique(Enabled(p), IdLess);
  }

  lemma DisableExtraOfUnique(p: Profiles)
    requires OneEnabled(p)
    ensures DisableExtra(p) == p
  {
    CollapseOfUnique(Enabled(p), IdLess);
    forall i | i in p && p[i].enabled ensures IsGroupMin(Enabled(p), IdLess, i) {
      assert i in Enabled(p);
      assert i in Collapse(Enabled(p), IdLess);
    }
  }

  // ---- The migration ----

  datatype Tables = Tables(profiles: Profiles, envVars: EnvTable, globals: GlobalTable, details: Details,
                           detailIndex: bool)

  /** SQLite keeps a unique index true once it exists. */
  ghost predicate IndexHolds(d: Tables) {
    d.detailIndex ==> Unique(d.details)
  }

  ghost predicate AllUnique(d: Tables) {
    OneEnabled(d.profiles) && Unique(d.envVars) && Unique(d.globals) && Unique(d.details)
  }

  function Migrated(d: Tables): Tables {
    Tables(DisableExtra(d.profiles), Collapse(d.envVars, IdLess), Collapse(d.globals, IdLess),
           if d.detailIndex then d.details else Collapse(d.details, RowidLess), true)
  }

  class Database {
    var tables: Tables

    constructor (t: Tables)
      ensures tables == t
    {
      tables := t;
    }

    /** Collapse, build the index, table by table; building an index fails on a duplicate. */
    method RunMigrations() returns (r: Result<()>)
      requires IndexHolds(tables)
      modifies this
      ensures r.Ok? && tables == Migrated(old(tables)) && AllUnique(tables)
    {
      IdOrder();
      tables := tables.(profiles := DisableExtra(tables.profiles));
      DisableExtraIsUnique(old(tables).profiles);
      var built := BuildIndex(Enabled(tables.profiles));
      if !built {
        return Err(QueryFailed("create throttle unique index"));
      }
      tables := tables.(envVars := Collapse(tables.envVars, IdLess));
      CollapseIsUnique(old(tables).envVars, IdLess);
      built := BuildIndex(tables.envVars);
      if !built {
        return Err(QueryFailed("create env vars unique index"));
      }
      tables := tables.(globals := Collapse(tables.globals, IdLess));
      CollapseIsUnique(old(tables).globals, IdLess);
      built := BuildIndex(tables.globals);
      if !built {
        return Err(QueryFailed("create global vars unique index"));
      }
      if !tables.detailIndex {
        tables := tables.(details := Collapse(tables.details, RowidLess));
        CollapseIsUnique(old(tables).details, RowidLess);
        built := BuildIndex(tables.details);
        if !built {
          return Err(QueryFailed("create session detail unique index"));
        }
        tables := tables.(detailIndex := true);
      }
      return Ok(());
    }
  }

  /** CREATE UNIQUE INDEX scans the rows and fails on the first repeated natural key. */
  method BuildIndex<I(!new, ==), K(==), V>(t: map<I, Row<K, V>>) returns (built: bool)
    ensures built <==> Unique(t)
  {
    var left, seen := t.Keys, {};
    while left != {}
      invariant left <= t.Keys
      invariant forall i :: i in t && i !in left ==> t[i].key in seen
      invariant forall k :: k in seen ==> exists i :: i in t && i !in left && t[i].key == k
      invariant forall i, j :: i in t && j in t && i !in left && j !in left && t[i].key == t[j].key ==> i == j
      decreases |left|
    {
      var i :| i in left;
      if t[i].key in seen {
        return false;
      }
      left, seen := left - {i}, seen + {t[i].key};
    }
    return true;
  }

  /** A second migration changes nothing. */
  lemma MigrationIdempotent(d: Tables)
    requires IndexHolds(d)
    ensures AllUnique(Migrated(d)) && Migrated(Migrated(d)) == Migrated(d)
  {
    IdOrder();
    DisableExtraIsUnique(d.profiles);
    DisableExtraOfUnique(DisableExtra(d.profiles));
    CollapseIsUnique(d.envVars, IdLess);
    CollapseIdempotent(d.envVars, IdLess);
    CollapseIsUnique(d.globals, IdLess);
    CollapseIdempotent(d.globals, IdLess);
    CollapseIsUnique(d.details, RowidLess);
  }

  /** Skipping the detail step when its index exists gives the same tables as never skipping it. */
  lemma GateChangesNothing(d: Tables)
    requires IndexHolds(d)
    ensures Migrated(d) == Migrated(d.(detailIndex := false))
  {
    if d.detailIndex {
      CollapseOfUnique(d.details, RowidLess);
    }
  }
}
