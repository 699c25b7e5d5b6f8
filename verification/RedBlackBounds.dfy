/** The height of a red-black tree. */
module RedBlackBounds {
  import opened RedBlackShape

  ghost function Pow2(n: nat): nat {
    if n == 0 then 1 else 2 * Pow2(n - 1)
  }

  lemma {:induction false} Pow2Monotone(a: nat, b: nat)
    requires a <= b
    ensures Pow2(a) <= Pow2(b)
    decreases b
  {
    if a < b { Pow2Monotone(a, b - 1); }
  }

  lemma {:induction false} Pow2Double(n: nat)
    ensures Pow2(2 * n) == Pow2(n) * Pow2(n)
  {
    if n > 0 {
      Pow2Double(n - 1);
      assert Pow2(2 * n) == 2 * (2 * Pow2(2 * (n - 1)));
      assert Pow2(n) * Pow2(n) == (2 * Pow2(n - 1)) * (2 * Pow2(n - 1)) == 4 * (Pow2(n - 1) * Pow2(n - 1));
    }
  }

  /** A path alternates at worst: it is at most twice as long as its black nodes. */
  lemma {:induction false} HeightByBlackHeight<T>(t: Tree<T>, h: nat)
    requires RB(t, h)
    ensures Height(t) <= 2 * h + if IsRed(t) then 1 else 0
  {
    if t.Bin? {
      var k := if t.red then h else h - 1;
      HeightByBlackHeight(t.left, k);
      HeightByBlackHeight(t.right, k);
    }
  }

  lemma {:induction false} SizeByBlackHeight<T>(t: Tree<T>, h: nat)
    requires RB(t, h)
    ensures Pow2(h) <= |Inorder(t)| + 1
  {
    if t.Bin? {
      var k := if t.red then h else h - 1;
      SizeByBlackHeight(t.left, k);
      SizeByBlackHeight(t.right, k);
    }
  }

  /** 2^height <= (n + 1)^2, that is, height <= 2 lg (n + 1). */
  lemma HeightBound<T>(t: Tree<T>)
    requires RedBlack(t)
    ensures Pow2(Height(t)) <= (|Inorder(t)| + 1) * (|Inorder(t)| + 1)
  {
    var h, n := BlackHeight(t), |Inorder(t)| + 1;
    HeightByBlackHeight(t, h);
    SizeByBlackHeight(t, h);
    Pow2Monotone(Height(t), 2 * h);
    Pow2Double(h);
    MulMonotone(Pow2(h), n);
  }

  lemma MulMonotone(a: nat, b: nat)
    requires a <= b
    ensures a * a <= b * b
  {
    assert b * b == a * a + (b - a) * (b + a);
  }
}
