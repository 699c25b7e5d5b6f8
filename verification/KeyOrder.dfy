/** The order of the two trees: C's strcasecmp on names, of which only the sign is used. */
module KeyOrder {

  function ToLower(c: char): char {
    if 'A' <= c <= 'Z' then (c as int + 32) as char else c
  }

  function Fold(s: string): (f: string)
    ensures |f| == |s|
  {
    seq(|s|, i requires 0 <= i < |s| => ToLower(s[i]))
  }

  function StrCaseCmp(a: string, b: string): (r: int) {
    if a == [] || b == [] then |a| - |b|
    else if ToLower(a[0]) != ToLower(b[0]) then ToLower(a[0]) as int - ToLower(b[0]) as int
    else StrCaseCmp(a[1..], b[1..])
  }

  predicate Less(a: string, b: string) { StrCaseCmp(a, b) < 0 }

  // ----- what this means for letters -----

  predicate IsCapital(c: char) { 'A' <= c <= 'Z' }

  /** The same character, or a capital and a small letter that stand at the same place in the alphabet. */
  predicate SameLetter(a: char, b: char) {
    a == b
    || ('A' <= a <= 'Z' && 'a' <= b <= 'z' && a as int - 'A' as int == b as int - 'a' as int)
    || ('a' <= a <= 'z' && 'A' <= b <= 'Z' && a as int - 'a' as int == b as int - 'A' as int)
  }

  /** The same name up to case. */
  predicate SameName(a: string, b: string) {
    |a| == |b| && forall i :: 0 <= i < |a| ==> SameLetter(a[i], b[i])
  }

  predicate NoCapitals(s: string) {
    forall i :: 0 <= i < |s| ==> !IsCapital(s[i])
  }

  /** Two names compare equal exactly when they have the same letters in the same places. */
  lemma {:induction false} EqualIffSameName(a: string, b: string)
    ensures StrCaseCmp(a, b) == 0 <==> SameName(a, b)
  {
    if a != [] && b != [] {
      EqualIffSameName(a[1..], b[1..]);
      assert a == [a[0]] + a[1..] && b == [b[0]] + b[1..];
    }
  }

  /** Folding leaves no capital and changes no letter but in case; what has no capital stays. */
  lemma FoldIsLower(s: string)
    ensures NoCapitals(Fold(s)) && SameName(s, Fold(s))
    ensures Fold(s) == s <==> NoCapitals(s)
  {
    if NoCapitals(s) {
      assert forall i :: 0 <= i < |s| ==> Fold(s)[i] == s[i];
    } else {
      var i :| 0 <= i < |s| && IsCapital(s[i]);
      assert Fold(s)[i] != s[i];
    }
  }

  /** One name is the beginning of the other, or has the smaller character where they first differ. */
  predicate InFront(a: string, b: string) {
    if a == [] || b == [] then a == [] && b != []
    else a[0] < b[0] || (a[0] == b[0] && InFront(a[1..], b[1..]))
  }

  /** Names in small letters are in the order of a dictionary, and capitals make no difference to the order. */
  lemma {:induction false} OrderOfNames(a: string, b: string)
    ensures StrCaseCmp(a, b) == StrCaseCmp(Fold(a), Fold(b))
    ensures NoCapitals(a) && NoCapitals(b) ==> (Less(a, b) <==> InFront(a, b))
  {
    if a != [] && b != [] {
      OrderOfNames(a[1..], b[1..]);
      assert Fold(a)[1..] == Fold(a[1..]) && Fold(b)[1..] == Fold(b[1..]);
      assert Fold(a)[0] == ToLower(a[0]) && Fold(b)[0] == ToLower(b[0]);
      assert ToLower(Fold(a)[0]) == ToLower(a[0]) && ToLower(Fold(b)[0]) == ToLower(b[0]);
      if NoCapitals(a) && NoCapitals(b) {
        assert !IsCapital(a[0]) && !IsCapital(b[0]);
      }
    }
  }

  /** Two names compare equal exactly when they are the same up to case. */
  lemma {:induction false} EqualIffSameFold(a: string, b: string)
    ensures StrCaseCmp(a, b) == 0 <==> Fold(a) == Fold(b)
  {
    if a != [] && b != [] {
      EqualIffSameFold(a[1..], b[1..]);
      assert Fold(a)[0] == ToLower(a[0]) && Fold(b)[0] == ToLower(b[0]);
      assert Fold(a)[1..] == Fold(a[1..]) && Fold(b)[1..] == Fold(b[1..]);
      assert Fold(a) == [Fold(a)[0]] + Fold(a)[1..] && Fold(b) == [Fold(b)[0]] + Fold(b)[1..];
    }
  }

  lemma {:induction false} Antisymmetric(a: string, b: string)
    ensures StrCaseCmp(a, b) == -StrCaseCmp(b, a)
  {
    if a != [] && b != [] { Antisymmetric(a[1..], b[1..]); }
  }

  lemma {:induction false} Transitive(a: string, b: string, c: string)
    requires (Less(a, b) && StrCaseCmp(b, c) <= 0) || (StrCaseCmp(a, b) <= 0 && Less(b, c))
    ensures Less(a, c)
  {
    if a != [] && b != [] && c != [] && ToLower(a[0]) == ToLower(b[0]) == ToLower(c[0]) {
      Transitive(a[1..], b[1..], c[1..]);
    }
  }
}
