/** The order of strings that Python's sorts use. */
module StringOrder {

  /** Order of strings by their characters' code points, as Python compares them. */
  predicate KeyLess(a: string, b: string) {
    if b == "" then false
    else if a == "" then true
    else a[0] < b[0] || (a[0] == b[0] && KeyLess(a[1..], b[1..]))
  }

  lemma {:induction false} KeyTotal(a: string, b: string)
    ensures KeyLess(a, b) || KeyLess(b, a) || a == b
    ensures !(KeyLess(a, b) && KeyLess(b, a)) && !KeyLess(a, a)
  {
    if a != "" {
      KeyTotal(a[1..], a[1..]);
      if b != "" {
        KeyTotal(a[1..], b[1..]);
        if a[0] == b[0] && a[1..] == b[1..] { assert a == [a[0]] + a[1..] && b == [b[0]] + b[1..]; }
      }
    }
  }

  lemma {:induction false} KeyTransitive(a: string, b: string, c: string)
    requires KeyLess(a, b) && KeyLess(b, c)
    ensures KeyLess(a, c)
  {
    if a != "" && a[0] == b[0] == c[0] {
      KeyTransitive(a[1..], b[1..], c[1..]);
    }
  }

  /** Strings with prefixes of one length compare by the prefixes first. */
  lemma {:induction false} PrefixFirst(p: string, q: string, x: string, y: string)
    requires |p| == |q|
    ensures KeyLess(p + x, q + y) <==> KeyLess(p, q) || (p == q && KeyLess(x, y))
  {
    if p == "" {
      assert p + x == x && q + y == y;
    } else {
      assert (p + x)[1..] == p[1..] + x && (q + y)[1..] == q[1..] + y;
      PrefixFirst(p[1..], q[1..], x, y);
      assert p == [p[0]] + p[1..] && q == [q[0]] + q[1..];
    }
  }

  /** The first difference decides; where there is none, the shorter text comes first. */
  lemma {:induction false} KeyLessExactly(a: string, b: string)
    ensures KeyLess(a, b) <==>
              exists k :: 0 <= k <= |a| && k < |b| && a[..k] == b[..k] && (k == |a| || a[k] < b[k])
  {
    if a != "" && b != "" && a[0] == b[0] {
      KeyLessExactly(a[1..], b[1..]);
      if KeyLess(a, b) {
        var x, y := a[1..], b[1..];
        var k :| 0 <= k <= |x| && k < |y| && x[..k] == y[..k] && (k == |x| || x[k] < y[k]);
        assert a[..k + 1] == [a[0]] + a[1..][..k] && b[..k + 1] == [b[0]] + b[1..][..k];
      }
      if k :| 0 <= k <= |a| && k < |b| && a[..k] == b[..k] && (k == |a| || a[k] < b[k]) {
        assert k > 0;
        assert a[1..][..k - 1] == a[..k][1..] && b[1..][..k - 1] == b[..k][1..];
        assert KeyLess(a[1..], b[1..]);
      }
    } else if a != "" && b != "" {
      assert forall k :: 0 < k <= |a| && k < |b| ==> a[..k][0] == a[0] && b[..k][0] == b[0];
      assert a[..0] == b[..0];
    } else if a == "" && b != "" {
      assert a[..0] == b[..0];
    }
  }

  /** A proper prefix comes first. */
  lemma PrefixLess(p: string, x: string)
    requires x != ""
    ensures KeyLess(p, p + x) && !KeyLess(p + x, p)
  {
    KeyLessExactly(p, p + x);
    assert (p + x)[..|p|] == p[..|p|];
    KeyTotal(p, p + x);
  }
}
