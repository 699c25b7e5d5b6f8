/** Global variables: values under the names of their symbols, kept in a second red-black tree. */
module GlobalVariables {
  import opened Options
  import opened KeyOrder
  import opened RedBlackShape
  import opened RedBlackHeap
  import opened Interning
  import RedBlackSearch
  import RedBlackInsert
  import RedBlackWalk

  class Variable<V> {
    const symbol: Symbol
    var value: Option<V>
    var desc: Option<string>
    /** Whether the description was not allocated. */
    var isCdesc: bool

    constructor (symbol: Symbol)
      ensures this.symbol == symbol && value == None && desc == None && !isCdesc
    {
      this.symbol, value, desc, isCdesc := symbol, None, None, false;
    }
  }

  /** The order of variables is that of their symbols. */
  function CompareVariables(f: Symbol, s: Symbol): int
    reads f, s
  {
    if f.name.None? then 1 else CompareSymbols(f.name.value, s)
  }

  function ByVariable<V>(sym: Symbol): Node<Variable<V>> ~> int {
    (n: Node<Variable<V>>) reads n.item.symbol, sym => CompareVariables(sym, n.item.symbol)
  }

  lemma VariablesCompare<V>(sym: Symbol, nodes: set<Node<Variable<V>>>)
    requires sym.name.Some? && forall n :: n in nodes ==> n.item.symbol.name == Some(n.key)
    ensures RedBlackSearch.Compares(ByVariable(sym), sym.name.value, nodes)
  {
  }

  class Globals<V> {
    const tree: Head<Variable<V>>
    /** The value last set under every folded name, and the variable that carries it. */
    ghost var values: map<string, V>
    ghost var variables: map<string, Variable<V>>

    constructor ()
      ensures Valid() && values == map[] && variables == map[] && fresh(tree) && tree.nodes == {}
    {
      tree := new Head();
      values, variables := map[], map[];
    }

    ghost predicate Indexed()
      reads this`variables, tree, tree.nodes
    {
      tree.Valid() && Index(tree.nodes, variables)
    }

    ghost predicate Carries(v: Variable<V>, x: V)
      reads v
    {
      v.value == Some(x)
    }

    /** The symbols of the variables have the names that the nodes are ordered by. */
    ghost predicate Ordered()
      reads this`variables, tree, tree.nodes, set v | v in variables.Values :: v.symbol
    {
      Indexed() && forall n :: n in tree.nodes ==> n.item.symbol.name == Some(n.key)
    }

    ghost predicate Valid()
      reads this, tree, tree.nodes, variables.Values, set v | v in variables.Values :: v.symbol
    {
      Ordered() && values.Keys == variables.Keys && forall f :: f in values ==> Carries(variables[f], values[f])
    }

    /** The variable of a symbol that has its name, up to case, or none. */
    method Find(sym: Symbol) returns (v: Variable?<V>)
      requires Ordered() && sym.name.Some?
      ensures v == if Fold(sym.name.value) in variables then variables[Fold(sym.name.value)] else null
    {
      VariablesCompare(sym, tree.nodes);
      var n, _ := RedBlackSearch.Find(tree, sym.name.value, ByVariable(sym));
      if n == null {
        NotThere(tree.nodes, variables, sym.name.value);
        return null;
      }
      EqualIffSameFold(sym.name.value, n.key);
      v := n.item;
    }

    /** The value last set under the symbol's name. */
    method Get(sym: Symbol) returns (x: Option<V>)
      requires Valid() && sym.name.Some?
      ensures x == if Fold(sym.name.value) in values then Some(values[Fold(sym.name.value)]) else None
    {
      var v := Find(sym);
      if v == null {
        return None;
      }
      assert Carries(v, values[Fold(sym.name.value)]);
      x := v.value;
    }

    /** Sets a value: an existing variable keeps its identity, and every other variable is as it was. */
    method Set(sym: Symbol, desc: Option<string>, isCdesc: bool, x: V) returns (v: Variable<V>)
      requires Valid() && sym.name.Some?
      modifies this, tree, tree.nodes, variables.Values
      ensures Valid() && tree.nodes >= old(tree.nodes) && fresh(tree.nodes - old(tree.nodes))
      ensures var f := Fold(old(sym.name.value));
        values == old(values)[f := x] && variables == old(variables)[f := v]
        && (if f in old(variables) then v == old(variables)[f] else fresh(v) && v.symbol == sym)
      ensures v.value == Some(x) && v.desc == desc && v.isCdesc == isCdesc
      ensures forall o :: o in old(variables).Values && o != v ==> unchanged(o)
    {
      hide Globals.Ordered, Globals.Carries, Fold;
      ghost var f := Fold(sym.name.value);
      v := FindOrInsert(sym);
      OneVariableEach(f);
      SetVariable(v, desc, isCdesc, x, f);
    }

    /** The variable under `f` gets a value; every other variable is another object and keeps its own. */
    method SetVariable(v: Variable<V>, desc: Option<string>, isCdesc: bool, x: V, ghost f: string)
      requires f in variables && variables[f] == v && forall g :: g in variables && g != f ==> variables[g] != v
      requires values.Keys + {f} == variables.Keys
      requires forall g :: g in values && g != f ==> Carries(variables[g], values[g])
      modifies this`values, v
      ensures values == old(values)[f := x] && values.Keys == variables.Keys
      ensures forall g :: g in values ==> Carries(variables[g], values[g])
      ensures v.value == Some(x) && v.desc == desc && v.isCdesc == isCdesc
    {
      v.value := Some(x);
      v.desc := desc;
      v.isCdesc := isCdesc;
      values := values[f := x];
    }

    lemma OneVariableEach(f: string)
      requires Ordered() && f in variables
      ensures forall g :: g in variables && g != f ==> variables[g] != variables[f]
    {
    }

    lemma NodeCarries(n: Node<Variable<V>>)
      requires Valid() && n in tree.nodes
      ensures Fold(n.key) in values && n.item.value == Some(values[Fold(n.key)]) && n.item.symbol.name == Some(n.key)
    {
      TableHas(tree.nodes, variables, n);
      assert Carries(variables[Fold(n.key)], values[Fold(n.key)]);
    }

    lemma HasNode(f: string)
      requires Valid() && f in values
      ensures exists n :: n in tree.nodes && Fold(n.key) == f
    {
    }

    /** All variables, one after the other in the order of their names. */
    method Snapshot() returns (m: map<string, V>)
      requires Valid()
      ensures m == values
    {
      hide Globals.Valid, Fold;
      TreeIsValid();
      var ns := RedBlackWalk.ForEach(tree);
      NodesAreInorder(tree.shape);
      m := map[];
      for i := 0 to |ns|
        invariant forall f :: f in m ==> f in values && m[f] == values[f]
        invariant forall j :: 0 <= j < i ==> Fold(ns[j].key) in m
      {
        assert ns[i] in Elems(ns);
        NodeCarries(ns[i]);
        m := m[Fold(ns[i].item.symbol.name.value) := ns[i].item.value.value];
      }
      forall f | f in values
        ensures f in m
      {
        HasNode(f);
        var n :| n in tree.nodes && Fold(n.key) == f;
        assert n in Elems(ns);
      }
    }

    lemma TreeIsValid()
      requires Valid()
      ensures tree.Valid() && tree.nodes == Nodes(tree.shape)
    {
    }

    method FindOrInsert(sym: Symbol) returns (v: Variable<V>)
      requires Ordered() && sym.name.Some?
      modifies this`variables, tree, tree.nodes
      ensures Ordered() && tree.nodes >= old(tree.nodes) && fresh(tree.nodes - old(tree.nodes))
      ensures var f := Fold(sym.name.value);
        variables == old(variables)[f := v]
          && (if f in old(variables) then v == old(variables)[f] else fresh(v) && v.symbol == sym)
    {
      hide Globals.Ordered, Fold;
      var found := Find(sym);
      if found != null {
        return found;
      }
      v := AddVariable(sym);
    }

    /** A new variable for a name that has none. */
    method AddVariable(sym: Symbol) returns (v: Variable<V>)
      requires Ordered() && sym.name.Some? && Fold(sym.name.value) !in variables
      modifies this`variables, tree, tree.nodes
      ensures Ordered() && tree.nodes >= old(tree.nodes) && fresh(tree.nodes - old(tree.nodes))
      ensures variables == old(variables)[Fold(sym.name.value) := v] && fresh(v) && v.symbol == sym
    {
      hide Head.Valid, Fold, StrCaseCmp, RedBlackSearch.Inserted, RedBlackSearch.Compares, ByVariable, Index;
      v := new Variable(sym);
      var n := new Node(sym.name.value, v);
      VariablesCompare(sym, tree.nodes);
      var other := RedBlackInsert.Insert(tree, n, ByVariable(sym));
      EqualIffSameFold(sym.name.value, if other == null then sym.name.value else other.key);
      if other != null { TableHas(old(tree.nodes), variables, other); }
      assert other == null;
      OneMoreNode(old(tree.nodes), variables, n);
      variables := variables[Fold(sym.name.value) := v];
    }
  }
}
