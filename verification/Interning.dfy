/** Symbols: one object for every name up to case, kept in a red-black tree. */
module Interning {
  import opened Options
  import opened KeyOrder
  import opened RedBlackShape
  import opened RedBlackHeap
  import RedBlackSearch
  import RedBlackInsert

  /** The nodes and the map say the same: a node under every folded name, and its item is what the map has. */
  ghost predicate Index<T>(nodes: set<Node<T>>, m: map<string, T>) {
    && (forall n :: n in nodes ==> Fold(n.key) in m && m[Fold(n.key)] == n.item)
    && (forall f :: f in m ==> exists n :: n in nodes && Fold(n.key) == f)
    && (forall f, g :: f in m && g in m && m[f] == m[g] ==> f == g)
  }

  lemma NotThere<T>(nodes: set<Node<T>>, m: map<string, T>, name: string)
    requires Index(nodes, m) && forall n :: n in nodes ==> StrCaseCmp(name, n.key) != 0
    ensures Fold(name) !in m
  {
    hide Fold, StrCaseCmp;
    forall n | n in nodes
      ensures Fold(n.key) != Fold(name)
    {
      EqualIffSameFold(name, n.key);
    }
  }

  lemma TableHas<T>(nodes: set<Node<T>>, m: map<string, T>, n: Node<T>)
    requires Index(nodes, m) && n in nodes
    ensures Fold(n.key) in m && m[Fold(n.key)] == n.item
  {
  }

  lemma OneMoreNode<T>(nodes: set<Node<T>>, m: map<string, T>, n: Node<T>)
    requires Index(nodes, m) && Fold(n.key) !in m && forall f :: f in m ==> m[f] != n.item
    ensures Index(nodes + {n}, m[Fold(n.key) := n.item])
  {
    hide Fold;
    var m' := m[Fold(n.key) := n.item];
    forall f | f in m'
      ensures exists k :: k in nodes + {n} && Fold(k.key) == f
    {
      if f == Fold(n.key) {
        assert n in nodes + {n};
      } else {
        var k :| k in nodes && Fold(k.key) == f;
        assert k in nodes + {n};
      }
    }
  }

  /** The name is absent only between the insertion of a new symbol and the end of its creation. */
  class Symbol {
    var name: Option<string>
    var isCdef: bool

    constructor (name: string)
      ensures this.name == Some(name) && isCdef
    {
      this.name, isCdef := Some(name), true;
    }
  }

  /** The comparator finds in the symbol what the node was inserted under. */
  ghost predicate Named(n: Node<Symbol>)
    reads n.item
  {
    n.item.name == Some(n.key)
  }

  /** The order of symbols, for which a missing name counts as beyond every name. */
  function CompareSymbols(name: string, s: Symbol): int
    reads s
  {
    if s.name.None? then 1 else StrCaseCmp(name, s.name.value)
  }

  /** The comparator of the symbol tree, with the name that is looked for. */
  function BySymbol(name: string): Node<Symbol> ~> int {
    (n: Node<Symbol>) reads n.item => CompareSymbols(name, n.item)
  }

  lemma SymbolsCompare(name: string, nodes: set<Node<Symbol>>)
    requires forall n :: n in nodes ==> Named(n)
    ensures RedBlackSearch.Compares(BySymbol(name), name, nodes)
  {
  }

  class SymbolTable {
    const tree: Head<Symbol>
    /** What the table means: a symbol for every folded name there is. */
    ghost var table: map<string, Symbol>

    constructor ()
      ensures Valid() && table == map[] && fresh(tree) && tree.nodes == {}
    {
      tree := new Head();
      table := map[];
    }

    /** The tree holds exactly the symbols of the table, each under the name it was inserted with. */
    ghost predicate Indexed()
      reads this`table, tree, tree.nodes
    {
      tree.Valid() && Index(tree.nodes, table)
    }

    /** Every symbol has the name its node is ordered by. */
    ghost predicate Valid()
      reads this, tree, tree.nodes, table.Values
    {
      Indexed() && forall n :: n in tree.nodes ==> Named(n)
    }

    /** The symbol of a name, up to case, or none. */
    method Get(name: string) returns (s: Symbol?)
      requires Valid()
      ensures s == if Fold(name) in table then table[Fold(name)] else null
    {
      SymbolsCompare(name, tree.nodes);
      var n, _ := RedBlackSearch.Find(tree, name, BySymbol(name));
      if n == null {
        NotThere(tree.nodes, table, name);
        return null;
      }
      EqualIffSameFold(name, n.key);
      s := n.item;
    }

    /**
     * The symbol of a name; a new one is in the table, but without a name for the caller to set. Until then its node is
     * the only one that is not ordered by the name of its symbol.
     */
    method GetOrCreate(name: string) returns (s: Symbol)
      requires Valid()
      modifies this, tree, tree.nodes
      ensures Indexed() && tree.nodes >= old(tree.nodes) && fresh(tree.nodes - old(tree.nodes))
      ensures Fold(name) in old(table) ==> s == old(table)[Fold(name)] && s.name.Some? && table == old(table) && Valid()
      ensures Fold(name) !in old(table) ==> fresh(s) && s.name == None && table == old(table)[Fold(name) := s]
      ensures forall n :: n in tree.nodes ==> Named(n) || (n.item == s && n.key == name && s.name == None)
    {
      hide Head.Valid, Fold, StrCaseCmp, RedBlackSearch.Inserted, RedBlackSearch.Compares, BySymbol, Index;
      var found := Get(name);
      if found != null {
        HasName(Fold(name));
        return found;
      }
      s := new Symbol(name);
      var n := new Node(name, s);
      SymbolsCompare(name, tree.nodes);
      var other := RedBlackInsert.Insert(tree, n, BySymbol(name));
      EqualIffSameFold(name, if other == null then name else other.key);
      if other != null { TableHas(old(tree.nodes), table, other); }
      assert other == null;
      s.name := None;
      OneMoreNode(old(tree.nodes), table, n);
      table := table[Fold(name) := s];
    }

    /** Looked up or not: every symbol of the table has a name, and it is the one of its entry up to case. */
    lemma HasName(f: string)
      requires Valid() && f in table
      ensures table[f].name.Some? && Fold(table[f].name.value) == f
    {
      hide Fold;
      var n :| n in tree.nodes && Fold(n.key) == f;
      assert Named(n);
    }

    /** The symbol of a name. One that exists keeps its name and its flag, a new one gets them here. */
    method NewSymbol(name: string, isCname: bool) returns (s: Symbol)
      requires Valid()
      modifies this, tree, tree.nodes
      ensures Valid() && tree.nodes >= old(tree.nodes) && fresh(tree.nodes - old(tree.nodes))
      ensures Fold(name) in table && s == table[Fold(name)]
      ensures Fold(name) in old(table) ==> table == old(table)
      ensures Fold(name) !in old(table) ==>
        (fresh(s) && s.name == Some(name) && s.isCdef == isCname && table == old(table)[Fold(name) := s])
    {
      hide SymbolTable.Indexed;
      s := GetOrCreate(name);
      if s.name == None {
        s.name := Some(name);
        s.isCdef := isCname;
      }
    }

    /** The same with a copy of the name for a new symbol, as the lexer needs it. */
    method GetOrCreateSymbol(name: string) returns (s: Symbol)
      requires Valid()
      modifies this, tree, tree.nodes
      ensures Valid() && tree.nodes >= old(tree.nodes) && fresh(tree.nodes - old(tree.nodes))
      ensures Fold(name) in table && s == table[Fold(name)]
      ensures Fold(name) in old(table) ==> table == old(table)
      ensures Fold(name) !in old(table) ==>
        (fresh(s) && s.name == Some(name) && !s.isCdef && table == old(table)[Fold(name) := s])
    {
      hide SymbolTable.Indexed;
      s := GetOrCreate(name);
      if s.name == None {
        s.name := Some(name);
        s.isCdef := false;
      }
    }

    lemma SameSymbol(a: string, b: string)
      requires Indexed() && Fold(a) in table && Fold(b) in table
      ensures table[Fold(a)] == table[Fold(b)] <==> StrCaseCmp(a, b) == 0
    {
      EqualIffSameFold(a, b);
    }
  }

  /** Over any sequence of requests two names get the same symbol exactly when they are equal up to case. */
  method InternAll(names: seq<string>, t: SymbolTable) returns (symbols: seq<Symbol>)
    requires t.Valid()
    modifies t, t.tree, t.tree.nodes
    ensures t.Valid() && |symbols| == |names|
    ensures forall i, j :: 0 <= i < |names| && 0 <= j < |names| ==>
      (symbols[i] == symbols[j] <==> SameName(names[i], names[j]))
    ensures forall f :: f in old(t.table) ==> f in t.table && t.table[f] == old(t.table)[f]
  {
    hide SymbolTable.Indexed, Fold, StrCaseCmp, SameName;
    symbols := [];
    while |symbols| < |names|
      invariant |symbols| <= |names| && t.Valid() && t.tree.nodes >= old(t.tree.nodes)
      invariant fresh(t.tree.nodes - old(t.tree.nodes))
      invariant forall i :: 0 <= i < |symbols| ==> Fold(names[i]) in t.table && symbols[i] == t.table[Fold(names[i])]
      invariant forall f :: f in old(t.table) ==> f in t.table && t.table[f] == old(t.table)[f]
    {
      var s := t.GetOrCreateSymbol(names[|symbols|]);
      symbols := symbols + [s];
    }
    forall i, j | 0 <= i < |names| && 0 <= j < |names|
      ensures symbols[i] == symbols[j] <==> SameName(names[i], names[j])
    {
      t.SameSymbol(names[i], names[j]);
      EqualIffSameName(names[i], names[j]);
    }
  }
}
