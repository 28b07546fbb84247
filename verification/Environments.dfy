/** Environment and global variables, written by natural key. */
module Environments {
  import opened Common
  import opened KeyedTable

  datatype EnvKey = EnvKey(environmentId: string, key: string)

  datatype Setting = Setting(value: string, enabled: bool, sortOrder: int)

  /** The row a client sends; `sortOrder` is a u32. */
  datatype EnvironmentVariable =
    EnvironmentVariable(id: string, environmentId: string, key: string, value: string, enabled: bool, sortOrder: nat)

  datatype GlobalVariable = GlobalVariable(id: string, key: string, value: string, enabled: bool, sortOrder: nat)

  type EnvTable = map<string, Row<EnvKey, Setting>>
  type GlobalTable = map<string, Row<string, Setting>>

  function EnvVar(v: EnvironmentVariable): Var<string, EnvKey, Setting> {
    Var(v.id, EnvKey(v.environmentId, v.key), Setting(v.value, v.enabled, AsI32(v.sortOrder)))
  }

  function GlobalVar(v: GlobalVariable): Var<string, string, Setting> {
    Var(v.id, v.key, Setting(v.value, v.enabled, AsI32(v.sortOrder)))
  }

  function EnvVars(vs: seq<EnvironmentVariable>): seq<Var<string, EnvKey, Setting>> {
    seq(|vs|, i requires 0 <= i < |vs| => EnvVar(vs[i]))
  }

  function GlobalVars(vs: seq<GlobalVariable>): seq<Var<string, string, Setting>> {
    seq(|vs|, i requires 0 <= i < |vs| => GlobalVar(vs[i]))
  }

  function InEnvironment(environmentId: string): EnvKey -> bool {
    (k: EnvKey) => k.environmentId == environmentId
  }

  function HasParent(environments: set<string>): EnvKey -> bool {
    (k: EnvKey) => k.environmentId in environments
  }

  const EVERY_KEY: string -> bool := (k: string) => true

  class VariableStore {
    var environments: set<string>
    var envVars: EnvTable
    var globals: GlobalTable

    constructor ()
      ensures Valid() && environments == {} && envVars == map[] && globals == map[]
    {
      environments, envVars, globals := {}, map[], map[];
    }

    /** The unique indexes and the foreign key. */
    ghost predicate Valid()
      reads this
    {
      && Unique(envVars) && Unique(globals)
      && forall i :: i in envVars ==> envVars[i].key.environmentId in environments
    }

    method UpsertEnvironmentVariable(v: EnvironmentVariable) returns (r: Result<()>)
      requires Valid()
      modifies `envVars
      ensures Valid()
      ensures var e := Upsert(old(envVars), HasParent(environments), EnvVar(v));
              if e.Ok? then r.Ok? && envVars == e.value else r.Err? && envVars == old(envVars)
    {
      var e := Upsert(envVars, HasParent(environments), EnvVar(v));
      if e.Err? {
        return Err(e.error);
      }
      UpsertWrites(envVars, HasParent(environments), EnvVar(v));
      envVars := e.value;
      return Ok(());
    }

    method UpsertEnvironmentVariables(vs: seq<EnvironmentVariable>) returns (r: Result<()>)
      requires Valid()
      modifies `envVars
      ensures Valid()
      ensures var all := UpsertAll(old(envVars), HasParent(environments), EnvVars(vs));
              if r.Ok? then all == Ok(envVars) else all.Err?
    {
      ghost var vars := EnvVars(vs);
      for n := 0 to |vs|
        invariant Valid() && UpsertAll(old(envVars), HasParent(environments), vars[..n]) == Ok(envVars)
      {
        assert vars[..n + 1][..n] == vars[..n] && vars[..n + 1][n] == EnvVar(vs[n]);
        r := UpsertEnvironmentVariable(vs[n]);
        if r.Err? {
          StopsEarly(old(envVars), HasParent(environments), vars, n + 1);
          return;
        }
      }
      assert vars[..|vs|] == vars;
      r := Ok(());
    }

    /** Clears the environment, then upserts in order; any error rolls everything back. */
    method SetEnvironmentVariables(environmentId: string, vs: seq<EnvironmentVariable>) returns (r: Result<()>)
      requires Valid()
      modifies `envVars
      ensures Valid()
      ensures var kept := Cleared(old(envVars), InEnvironment(environmentId));
              && (r.Ok? <==> Acceptable(kept, HasParent(environments), EnvVars(vs)))
              && (r.Err? ==> envVars == old(envVars))
              && (r.Ok? ==> forall k :: WrittenAt(kept, EnvVars(vs), envVars, k))
    {
      var saved := envVars;
      envVars := Cleared(envVars, InEnvironment(environmentId));
      ghost var kept := envVars;
      r := UpsertEnvironmentVariables(vs);
      Replaced(kept, HasParent(environments), EnvVars(vs));
      if r.Err? {
        envVars := saved;
      }
    }

    method UpsertGlobalVariable(v: GlobalVariable) returns (r: Result<()>)
      requires Valid()
      modifies `globals
      ensures Valid()
      ensures var e := Upsert(old(globals), EVERY_KEY, GlobalVar(v));
              if e.Ok? then r.Ok? && globals == e.value else r.Err? && globals == old(globals)
    {
      var e := Upsert(globals, EVERY_KEY, GlobalVar(v));
      if e.Err? {
        return Err(e.error);
      }
      UpsertWrites(globals, EVERY_KEY, GlobalVar(v));
      globals := e.value;
      return Ok(());
    }

    method UpsertGlobalVariables(vs: seq<GlobalVariable>) returns (r: Result<()>)
      requires Valid()
      modifies `globals
      ensures Valid()
      ensures var all := UpsertAll(old(globals), EVERY_KEY, GlobalVars(vs));
              if r.Ok? then all == Ok(globals) else all.Err?
    {
      ghost var vars := GlobalVars(vs);
      for n := 0 to |vs|
        invariant Valid() && UpsertAll(old(globals), EVERY_KEY, vars[..n]) == Ok(globals)
      {
        assert vars[..n + 1][..n] == vars[..n] && vars[..n + 1][n] == GlobalVar(vs[n]);
        r := UpsertGlobalVariable(vs[n]);
        if r.Err? {
          StopsEarly(old(globals), EVERY_KEY, vars, n + 1);
          return;
        }
      }
      assert vars[..|vs|] == vars;
      r := Ok(());
    }

    method SetGlobalVariables(vs: seq<GlobalVariable>) returns (r: Result<()>)
      requires Valid()
      modifies `globals
      ensures Valid()
      ensures && (r.Ok? <==> Acceptable(map[], EVERY_KEY, GlobalVars(vs)))
              && (r.Err? ==> globals == old(globals))
              && (r.Ok? ==> forall k :: WrittenAt(map[], GlobalVars(vs), globals, k))
    {
      var saved := globals;
      globals := map[];
      r := UpsertGlobalVariables(vs);
      Replaced(map[], EVERY_KEY, GlobalVars(vs));
      if r.Err? {
        globals := saved;
      }
    }
  }

  /** What a whole replacement gives: accepted exactly when every insert can be made, and
      then the last writer of each key wins. */
  lemma Replaced<K(!new), V>(kept: map<string, Row<K, V>>, parent: K -> bool, vars: seq<Var<string, K, V>>)
    requires Unique(kept)
    ensures UpsertAll(kept, parent, vars).Ok? <==> Acceptable(kept, parent, vars)
    ensures UpsertAll(kept, parent, vars).Ok?
            ==> forall k :: WrittenAt(kept, vars, UpsertAll(kept, parent, vars).value, k)
  {
    AcceptedExactly(kept, parent, vars);
    if UpsertAll(kept, parent, vars).Ok? {
      forall k ensures WrittenAt(kept, vars, UpsertAll(kept, parent, vars).value, k) {
        LastWriterWins(kept, parent, vars, k);
      }
    }
  }

  lemma {:induction false} StopsEarly<K, V>(t: map<string, Row<K, V>>, parent: K -> bool,
                                            vars: seq<Var<string, K, V>>, n: nat)
    requires Unique(t) && n <= |vars| && UpsertAll(t, parent, vars[..n]).Err?
    ensures UpsertAll(t, parent, vars).Err?
    decreases |vars|
  {
    if n == |vars| {
      assert vars[..n] == vars;
    } else {
      assert vars[..|vars| - 1][..n] == vars[..n];
      StopsEarly(t, parent, vars[..|vars| - 1], n);
    }
  }
}
