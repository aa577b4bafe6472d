/** The narrow part of the Lua C API that the binding depends on: raw
    addresses, the kinds of value it tells apart, tables passed by
    reference, and the order in which lua_next visits a table. */
module Lua {

  /** A raw C address. 0 stands for NULL. */
  type Addr = nat

  /** A Lua value, as far as the binding distinguishes kinds:
      a string, a light userdata (a bare pointer), or anything else
      (number, boolean, table, function, full userdata, ...). */
  datatype Value = Str(s: string) | Light(addr: Addr) | Other

  /** A Lua table. Tables are passed by reference, so writes made by the
      binding are seen by the caller. */
  class Table {
    var entries: map<Value, Value>

    constructor (entries: map<Value, Value>)
      ensures this.entries == entries
    {
      this.entries := entries;
    }
  }

  /** `order` is a possible lua_next traversal of the table `m`:
      every key exactly once, in some order Lua chooses. */
  predicate IsTraversal(order: seq<Value>, m: map<Value, Value>) {
    && (forall i, j :: 0 <= i < j < |order| ==> order[i] != order[j])
    && (forall i :: 0 <= i < |order| ==> order[i] in m)
    && (forall k :: k in m ==> k in order)
  }

  /** Every key of `m` is a string. */
  predicate StringKeys(m: map<Value, Value>) {
    forall k :: k in m ==> k.Str?
  }
}
