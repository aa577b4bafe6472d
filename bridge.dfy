/** The symbol bridge: the loops of limport and lexport and the fixed
    registration list of import_sym, as functions over the values they
    traverse. */
module Bridge {
  import opened Lua
  import opened Tcc

  // ----- limport -----

  /** A table entry limport accepts: a string key with a light userdata
      value. */
  predicate Importable(m: map<Value, Value>, k: Value) {
    k in m && k.Str? && m[k].Light?
  }

  /** The position in the traversal of the first entry limport rejects,
      or the traversal's length when it accepts them all. */
  function FirstRejected(m: map<Value, Value>, keys: seq<Value>): (j: nat)
    ensures j <= |keys|
    ensures forall i :: 0 <= i < j ==> Importable(m, keys[i])
    ensures j < |keys| ==> !Importable(m, keys[j])
  {
    if keys == [] || !Importable(m, keys[0]) then 0 else 1 + FirstRejected(m, keys[1..])
  }

  /** The engine after tcc_add_symbol for each accepted entry, in
      traversal order. */
  function Installed(e: Engine, m: map<Value, Value>, keys: seq<Value>): Engine
    requires forall i :: 0 <= i < |keys| ==> Importable(m, keys[i])
  {
    if keys == [] then e
    else
      var k := keys[|keys| - 1];
      assert Importable(m, k);
      AddSymbol(Installed(e, m, keys[..|keys| - 1]), k.s, m[k].addr)
  }

  /** Installing one more accepted entry is one more tcc_add_symbol. */
  lemma InstalledNext(e: Engine, m: map<Value, Value>, order: seq<Value>, i: nat)
    requires i < |order| && forall j :: 0 <= j <= i ==> Importable(m, order[j])
    ensures Installed(e, m, order[..i + 1]) ==
      AddSymbol(Installed(e, m, order[..i]), order[i].s, m[order[i]].addr)
  {
    assert order[..i + 1][..i] == order[..i];
  }

  /** The names of string keys. */
  function Names(keys: seq<Value>): set<string> {
    set i | 0 <= i < |keys| && keys[i].Str? :: keys[i].s
  }

  lemma NamesSnoc(init: seq<Value>, k: Value)
    requires k.Str?
    ensures Names(init + [k]) == Names(init) + {k.s}
  {
    var keys := init + [k];
    assert keys[|init|] == k;
    forall n | n in Names(keys) ensures n in Names(init) + {k.s} {
      var i :| 0 <= i < |keys| && keys[i].Str? && keys[i].s == n;
      if i < |init| { assert keys[i] == init[i]; }
    }
    forall n | n in Names(init) ensures n in Names(keys) {
      var i :| 0 <= i < |init| && init[i].Str? && init[i].s == n;
      assert keys[i] == init[i];
    }
  }

  /** limport binds each imported name to its light userdata, adds no
      other name and leaves every other binding as it was. */
  lemma {:induction false} InstalledBinds(e: Engine, m: map<Value, Value>, keys: seq<Value>)
    requires forall i :: 0 <= i < |keys| ==> Importable(m, keys[i])
    ensures Installed(e, m, keys).errorSink == e.errorSink
    ensures Installed(e, m, keys).symbols.Keys == e.symbols.Keys + Names(keys)
    ensures forall i :: 0 <= i < |keys| ==> Address(Installed(e, m, keys), keys[i].s) == m[keys[i]].addr
    ensures forall n :: n !in Names(keys) ==> Address(Installed(e, m, keys), n) == Address(e, n)
  {
    if keys != [] {
      var init, k := keys[..|keys| - 1], keys[|keys| - 1];
      assert keys == init + [k];
      assert Importable(m, k);
      InstalledBinds(e, m, init);
      NamesSnoc(init, k);
      var before, after := Installed(e, m, init), Installed(e, m, keys);
      assert after == AddSymbol(before, k.s, m[k].addr);
      forall i | 0 <= i < |keys|
        ensures Address(after, keys[i].s) == m[keys[i]].addr
      {
        assert Importable(m, keys[i]);
        if keys[i].s == k.s {
          assert keys[i] == k;
        } else {
          assert keys[i] == init[i];
        }
      }
    }
  }

  // ----- lexport -----

  /** Every key is a string, as lexport needs of the table it fills. */
  predicate AllStrings(keys: seq<Value>) {
    forall i :: 0 <= i < |keys| ==> keys[i].Str?
  }

  /** The position in the traversal of the first name the engine has no
      (non-NULL) symbol for, or the traversal's length. */
  function FirstMissing(e: Engine, keys: seq<Value>): (j: nat)
    requires AllStrings(keys)
    ensures j <= |keys|
    ensures forall i :: 0 <= i < j ==> Address(e, keys[i].s) != 0
    ensures j < |keys| ==> Address(e, keys[j].s) == 0
  {
    if keys == [] || Address(e, keys[0].s) == 0 then 0 else 1 + FirstMissing(e, keys[1..])
  }

  /** The table after lexport has stored, for each key in traversal
      order, the address of the symbol of that name. */
  function Written(m: map<Value, Value>, keys: seq<Value>, e: Engine): map<Value, Value>
    requires AllStrings(keys)
  {
    if keys == [] then m
    else
      var k := keys[|keys| - 1];
      Written(m, keys[..|keys| - 1], e)[k := Light(Address(e, k.s))]
  }

  /** lexport adds no key to the caller's table; each visited key now
      holds its symbol's address, every other key its old value. */
  lemma {:induction false} WrittenSpec(m: map<Value, Value>, keys: seq<Value>, e: Engine)
    requires AllStrings(keys)
    requires forall i :: 0 <= i < |keys| ==> keys[i] in m
    ensures Written(m, keys, e).Keys == m.Keys
    ensures forall k :: k in m ==> Written(m, keys, e)[k] == if k in keys then Light(Address(e, k.s)) else m[k]
  {
    if keys != [] {
      var init, k := keys[..|keys| - 1], keys[|keys| - 1];
      WrittenSpec(m, init, e);
      assert forall x :: x in keys <==> x in init || x == k;
    }
  }

  // ----- import_sym -----

  /** The Lua C API functions import_sym registers, in its order. */
  const ApiNames: seq<string> := [
    "lua_checkstack", "lua_pushnumber", "lua_tonumberx", "lua_settop",
    "lua_gettop", "luaL_error", "lua_pushboolean", "lua_toboolean",
    "lua_tolstring", "lua_topointer", "lua_pushstring", "lua_getfield",
    "lua_setfield", "lua_pushnil", "lua_rawgetp", "lua_rawsetp",
    "lua_pushvalue", "lua_createtable", "lua_replace"
  ]

  /** tcc_add_symbol for each name in turn, bound to the host's address of
      the function of that name. */
  function Registered(e: Engine, names: seq<string>, host: string -> Addr): Engine {
    if names == [] then e
    else
      var n := names[|names| - 1];
      AddSymbol(Registered(e, names[..|names| - 1], host), n, host(n))
  }

  /** import_sym */
  function WithApi(e: Engine, host: string -> Addr): Engine {
    Registered(e, ApiNames, host)
  }

  lemma {:induction false} RegisteredBinds(e: Engine, names: seq<string>, host: string -> Addr)
    ensures Registered(e, names, host).errorSink == e.errorSink
    ensures Registered(e, names, host).symbols.Keys == e.symbols.Keys + set n | n in names
    ensures forall n :: n in names ==> Address(Registered(e, names, host), n) == host(n)
    ensures forall n :: n !in names ==> Address(Registered(e, names, host), n) == Address(e, n)
  {
    if names != [] {
      var init, last := names[..|names| - 1], names[|names| - 1];
      RegisteredBinds(e, init, host);
      assert forall x :: x in names <==> x in init || x == last;
    }
  }

  /** lapi binds exactly the nineteen names of import_sym to the host's
      functions and leaves every other binding alone. */
  lemma ApiBinds(e: Engine, host: string -> Addr)
    ensures WithApi(e, host).errorSink == e.errorSink
    ensures WithApi(e, host).symbols.Keys == e.symbols.Keys + set n | n in ApiNames
    ensures forall n :: n in ApiNames ==> Address(WithApi(e, host), n) == host(n)
    ensures forall n :: n !in ApiNames ==> Address(WithApi(e, host), n) == Address(e, n)
  {
    RegisteredBinds(e, ApiNames, host);
  }

  lemma {:induction false} DistinctCount(s: seq<string>)
    requires forall i, j :: 0 <= i < j < |s| ==> s[i] != s[j]
    ensures |set x | x in s| == |s|
  {
    if s != [] {
      var init := s[..|s| - 1];
      DistinctCount(init);
      assert (set x | x in s) == (set x | x in init) + {s[|s| - 1]};
    }
  }

  lemma ApiNamesDistinct()
    ensures forall i, j :: 0 <= i < j < |ApiNames| ==> ApiNames[i] != ApiNames[j]
  {
  }

  /** On an engine that has none of them yet, lapi adds nineteen symbols. */
  lemma ApiAddsNineteen(e: Engine, host: string -> Addr)
    requires forall n :: n in ApiNames ==> n !in e.symbols
    ensures |WithApi(e, host).symbols| == |e.symbols| + 19
  {
    ApiBinds(e, host);
    ApiNamesDistinct();
    DistinctCount(ApiNames);
    var added := set n | n in ApiNames;
    assert e.symbols.Keys * added == {};
    assert |WithApi(e, host).symbols.Keys| == |e.symbols.Keys| + |added|;
  }
}
