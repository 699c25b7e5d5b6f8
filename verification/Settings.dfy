/** Sequences of settings of global variables: the last one under a name, up to case, counts. */
module Settings {
  import opened KeyOrder

  datatype Setting<V> = Setting(name: string, value: V)

  function SetEach<V>(m: map<string, V>, ws: seq<Setting<V>>): map<string, V> {
    if ws == [] then m
    else
      var k := |ws| - 1;
      SetEach(m, ws[..k])[Fold(ws[k].name) := ws[k].value]
  }

  lemma SetNone<V>(m: map<string, V>, ws: seq<Setting<V>>)
    ensures SetEach(m, ws[..0]) == m
  {
  }

  lemma SetLast<V>(m: map<string, V>, ws: seq<Setting<V>>, i: nat)
    requires i < |ws|
    ensures SetEach(m, ws[..i + 1]) == SetEach(m, ws[..i])[Fold(ws[i].name) := ws[i].value]
  {
    assert ws[..i + 1][..i] == ws[..i];
  }

  lemma SameFold(a: string, b: string)
    ensures Fold(a) == Fold(b) <==> SameName(a, b)
  {
    EqualIffSameFold(a, b);
    EqualIffSameName(a, b);
  }

  /** A lookup gives the value of the last setting under a name equal up to case; other settings do not touch it. */
  lemma {:induction false} LastOneCounts<V>(m: map<string, V>, ws: seq<Setting<V>>, name: string, k: nat)
    requires k < |ws| && SameName(ws[k].name, name)
    requires forall i :: k < i < |ws| ==> !SameName(ws[i].name, name)
    ensures Fold(name) in SetEach(m, ws) && SetEach(m, ws)[Fold(name)] == ws[k].value
    decreases |ws|
  {
    var n := |ws| - 1;
    SameFold(ws[n].name, name);
    if k < n {
      LastOneCounts(m, ws[..n], name, k);
    }
  }

  lemma {:induction false} OthersUntouched<V>(m: map<string, V>, ws: seq<Setting<V>>, name: string)
    requires forall i :: 0 <= i < |ws| ==> !SameName(ws[i].name, name)
    ensures Fold(name) in SetEach(m, ws) <==> Fold(name) in m
    ensures Fold(name) in m ==> SetEach(m, ws)[Fold(name)] == m[Fold(name)]
    decreases |ws|
  {
    if ws != [] {
      var n := |ws| - 1;
      SameFold(ws[n].name, name);
      OthersUntouched(m, ws[..n], name);
    }
  }
}
