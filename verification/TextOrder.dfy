/** Strings compared by code point, and the sorted listing of a set of names. */
module TextOrder {
  import opened Ordering

  predicate TextLe(a: string, b: string) {
    a == "" || (b != "" && (a[0] < b[0] || (a[0] == b[0] && TextLe(a[1..], b[1..]))))
  }

  predicate Begins(a: string, b: string) { |a| <= |b| && a == b[..|a|] }

  /** The texts part at place i, the first with the smaller character. */
  predicate PartsAt(a: string, b: string, i: nat) { i < |a| && i < |b| && a[..i] == b[..i] && a[i] < b[i] }

  /** One text comes no later than another when it begins it, or has the smaller character where they part. */
  lemma {:induction false} TextLeTells(a: string, b: string)
    ensures TextLe(a, b) <==> Begins(a, b) || exists i: nat | i < |a| :: PartsAt(a, b, i)
  {
    if a != "" && b != "" && a[0] == b[0] {
      var x, y := a[1..], b[1..];
      TextLeTells(x, y);
      assert a == [a[0]] + x && (|a| <= |b| ==> b[..|a|] == [b[0]] + y[..|x|]);
      assert Begins(a, b) ==> x == b[..|a|][1..];
      forall i: nat | i < |x| ensures PartsAt(x, y, i) <==> PartsAt(a, b, i + 1) {
        assert i < |y| ==> a[..i + 1] == [a[0]] + x[..i] && b[..i + 1] == [b[0]] + y[..i];
        assert i < |y| && a[..i + 1] == b[..i + 1] ==> x[..i] == a[..i + 1][1..] && y[..i] == b[..i + 1][1..];
      }
      if i: nat :| i < |a| && PartsAt(a, b, i) { assert i > 0 && PartsAt(x, y, i - 1); }
      if i: nat :| i < |x| && PartsAt(x, y, i) { assert PartsAt(a, b, i + 1); }
    } else if a != "" && b != "" && a[0] < b[0] {
      assert PartsAt(a, b, 0);
    }
  }

  lemma {:induction false} TextLeTotal(a: string, b: string)
    ensures TextLe(a, b) || TextLe(b, a)
  {
    if a != "" && b != "" { TextLeTotal(a[1..], b[1..]); }
  }

  lemma {:induction false} TextLeAntisymmetric(a: string, b: string)
    requires TextLe(a, b) && TextLe(b, a)
    ensures a == b
  {
    if a != "" && b != "" {
      TextLeAntisymmetric(a[1..], b[1..]);
      assert a == [a[0]] + a[1..] && b == [b[0]] + b[1..];
    }
  }

  lemma {:induction false} TextLeTransitive(a: string, b: string, c: string)
    requires TextLe(a, b) && TextLe(b, c)
    ensures TextLe(a, c)
  {
    if a != "" && a[0] == b[0] && b[0] == c[0] { TextLeTransitive(a[1..], b[1..], c[1..]); }
  }

  lemma TextLeIsTotalOrder()
    ensures TotalOrder(TextLe)
  {
    forall a, b ensures TextLe(a, b) || TextLe(b, a) { TextLeTotal(a, b); }
    forall a, b | TextLe(a, b) && TextLe(b, a) ensures a == b { TextLeAntisymmetric(a, b); }
    forall a, b, c | TextLe(a, b) && TextLe(b, c) ensures TextLe(a, c) { TextLeTransitive(a, b, c); }
  }

  ghost predicate IsLeast(x: string, names: set<string>) { x in names && forall y | y in names :: TextLe(x, y) }

  lemma {:induction false} LeastExists(names: set<string>)
    requires names != {}
    ensures exists x :: IsLeast(x, names)
  {
    TextLeIsTotalOrder();
    var a :| a in names;
    if names - {a} == {} {
      assert names == {a};
      assert TextLe(a, a);
      assert IsLeast(a, names);
    } else {
      LeastExists(names - {a});
      var b :| IsLeast(b, names - {a});
      assert IsLeast(if TextLe(a, b) then a else b, names);
    }
  }

  /** `sorted` on a set of names. */
  function Listed(names: set<string>): (r: seq<string>)
    ensures forall x :: x in r <==> x in names
    ensures r == [] <==> names == {}
  {
    if names == {} then []
    else
      LeastExists(names);
      TextLeIsTotalOrder();
      assert forall x, y | IsLeast(x, names) && IsLeast(y, names) :: x == y;
      var least :| least in names && forall y | y in names :: TextLe(least, y);
      [least] + Listed(names - {least})
  }

  lemma {:induction false} ListedIsOrdered(names: set<string>)
    ensures Ordered(Listed(names), TextLe) && Distinct(Listed(names))
  {
    if names != {} {
      var least := Listed(names)[0];
      ListedIsOrdered(names - {least});
      assert Listed(names)[1..] == Listed(names - {least});
      assert forall j | 1 <= j < |Listed(names)| :: Listed(names)[j] == Listed(names - {least})[j - 1];
    }
  }
}
