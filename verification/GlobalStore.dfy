/** The global variables of a running program: values in a tree of variables, found by way of the tree of symbols. */
module GlobalStore {
  import opened Options
  import opened KeyOrder
  import opened Bytecode
  import opened Settings
  import opened Interning
  import GlobalVariables

  lemma OneMoreValue<V>(m: map<string, V>, f: string, v: V)
    ensures m[f := v].Values <= m.Values + {v} && m[f := v].Keys == m.Keys + {f}
  {
  }

  class Store {
    const symbols: SymbolTable
    const vars: GlobalVariables.Globals<Value>
    /** The value under every folded name, and all objects of the two trees. */
    ghost var values: map<string, Value>
    ghost var parts: set<object>

    constructor ()
      ensures Valid() && values == map[] && fresh(parts)
    {
      hide *;
      symbols := new SymbolTable();
      vars := new GlobalVariables.Globals();
      values, parts := map[], {};
      new;
      parts := {symbols, symbols.tree, vars, vars.tree};
      Close();
    }

    /** The two trees and their records belong to the store. */
    ghost predicate Closed()
      reads this, symbols, symbols.tree, vars, vars.tree
    {
      this !in parts && {symbols, symbols.tree, vars, vars.tree} <= parts
      && symbols.tree.nodes <= parts && symbols.table.Values <= parts
      && vars.tree.nodes <= parts && vars.variables.Values <= parts
      && forall v :: v in vars.variables.Values ==> v.symbol in parts
    }

    ghost predicate Valid()
      reads this, parts
    {
      {symbols, symbols.tree, vars, vars.tree} <= parts && Closed() && symbols.Valid() && vars.Valid()
        && values == vars.values
      && vars.variables.Keys <= symbols.table.Keys
    }

    /** The value of a name up to case, nil if it has none. */
    method Get(x: string) returns (v: Value)
      requires Valid()
      ensures v == if Fold(x) in values then values[Fold(x)] else Nil
    {
      var s := symbols.Get(x);
      if s == null {
        return Nil;
      }
      symbols.HasName(Fold(x));
      var o := vars.Get(s);
      v := if o.Some? then o.value else Nil;
    }

    /** What a C function can see of the globals. */
    method Snapshot() returns (m: map<string, Value>)
      requires Valid()
      ensures m == values
    {
      m := vars.Snapshot();
    }

    /** The symbol of a name. */
    method Intern(x: string) returns (s: Symbol)
      requires Valid()
      modifies this`parts, symbols, symbols.tree, symbols.tree.nodes
      ensures Valid() && old(parts) <= parts && fresh(parts - old(parts))
      ensures s in parts && s.name.Some? && Fold(s.name.value) == Fold(x) && Fold(x) in symbols.table
    {
      hide *;
      Open();
      ghost var was := symbols.table;
      s := symbols.GetOrCreateSymbol(x);
      symbols.HasName(Fold(x));
      OneMoreValue(was, Fold(x), s);
      parts := parts + symbols.tree.nodes + {s};
      Close();
    }

    /** The value under the name is the new one, and every other name keeps its own. */
    method Set(x: string, v: Value)
      requires Valid()
      modifies this, parts
      ensures Valid() && values == old(values)[Fold(x) := v] && old(parts) <= parts && fresh(parts - old(parts))
    {
      hide SymbolTable.Valid, GlobalVariables.Globals.Valid, Fold;
      var s := Intern(x);
      SetSymbol(s, v);
    }

    method SetSymbol(s: Symbol, v: Value)
      requires Valid() && s in parts && s.name.Some? && Fold(s.name.value) in symbols.table
      modifies this, vars, vars.tree, vars.tree.nodes, vars.variables.Values
      ensures Valid() && values == old(values)[Fold(old(s.name.value)) := v]
      ensures old(parts) <= parts && fresh(parts - old(parts))
    {
      hide *;
      Open();
      ghost var f, was := Fold(s.name.value), vars.variables;
      var o := SetVariable(s, v);
      OneMoreValue(was, f, o);
      parts := parts + vars.tree.nodes + {o};
      values := vars.values;
      Close();
    }

    /** The tree of symbols does not notice. */
    method SetVariable(s: Symbol, v: Value) returns (o: GlobalVariables.Variable<Value>)
      requires symbols.Valid() && vars.Valid() && s.name.Some?
      modifies vars, vars.tree, vars.tree.nodes, vars.variables.Values
      ensures symbols.Valid() && vars.Valid() && vars.tree.nodes >= old(vars.tree.nodes)
      ensures symbols.table == old(symbols.table) && symbols.tree.nodes == old(symbols.tree.nodes)
      ensures fresh(vars.tree.nodes - old(vars.tree.nodes))
      ensures var f := Fold(old(s.name.value));
        vars.values == old(vars.values)[f := v] && vars.variables == old(vars.variables)[f := o]
        && (if f in old(vars.variables) then o == old(vars.variables)[f] else fresh(o) && o.symbol == s)
    {
      hide *;
      o := vars.Set(s, None, true, v);
    }

    lemma Open()
      requires Valid()
      ensures this !in parts && {symbols, symbols.tree, vars, vars.tree} <= parts
      ensures symbols.tree.nodes <= parts && symbols.table.Values <= parts
      ensures vars.tree.nodes <= parts && vars.variables.Values <= parts
      ensures forall v :: v in vars.variables.Values ==> v.symbol in parts
      ensures symbols.Valid() && vars.Valid() && values == vars.values && vars.variables.Keys <= symbols.table.Keys
    {
      hide SymbolTable.Valid, GlobalVariables.Globals.Valid;
    }

    lemma Close()
      requires this !in parts && {symbols, symbols.tree, vars, vars.tree} <= parts
      requires symbols.tree.nodes <= parts && symbols.table.Values <= parts
      requires vars.tree.nodes <= parts && vars.variables.Values <= parts
      requires forall v :: v in vars.variables.Values ==> v.symbol in parts
      requires symbols.Valid() && vars.Valid() && values == vars.values && vars.variables.Keys <= symbols.table.Keys
      ensures Valid()
    {
      hide SymbolTable.Valid, GlobalVariables.Globals.Valid;
    }

    method SetAll(ws: seq<Setting<Value>>)
      requires Valid()
      modifies this, parts
      ensures Valid() && values == SetEach(old(values), ws) && old(parts) <= parts && fresh(parts - old(parts))
    {
      hide Store.Valid, SetEach, Fold;
      ghost var was := values;
      SetNone(was, ws);
      for i := 0 to |ws|
        invariant Valid() && values == SetEach(was, ws[..i]) && old(parts) <= parts && fresh(parts - old(parts))
      {
        SetLast(was, ws, i);
        Set(ws[i].name, ws[i].value);
      }
      assert ws[..|ws|] == ws;
    }

    /** Sets everything a map of folded names has. */
    method Load(m: map<string, Value>)
      requires Valid() && forall x :: x in m ==> Fold(x) == x
      modifies this, parts
      ensures Valid() && values == old(values) + m && old(parts) <= parts && fresh(parts - old(parts))
    {
      hide Store.Valid, Fold;
      ghost var was := values;
      var rest := m.Keys;
      while rest != {}
        invariant Valid() && old(parts) <= parts && fresh(parts - old(parts)) && rest <= m.Keys
        invariant values.Keys == was.Keys + (m.Keys - rest)
        invariant forall x :: x in values ==> values[x] == if x in m && x !in rest then m[x] else was[x]
        decreases |rest|
      {
        var x :| x in rest;
        Set(x, m[x]);
        rest := rest - {x};
      }
    }
  }
}
