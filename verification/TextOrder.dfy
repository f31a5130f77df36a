/** The order of texts by their characters, and of triples of texts. */
module TextOrder {

  predicate TextLe(a: string, b: string) {
    a == "" || (b != "" && (a[0] < b[0] || (a[0] == b[0] && TextLe(a[1..], b[1..]))))
  }

  lemma {:induction false} TextTotal(a: string, b: string)
    ensures TextLe(a, b) || TextLe(b, a)
  {
    if a != "" && b != "" && a[0] == b[0] {
      TextTotal(a[1..], b[1..]);
    }
  }

  lemma {:induction false} TextAntisymmetric(a: string, b: string)
    requires TextLe(a, b) && TextLe(b, a)
    ensures a == b
  {
    if a != "" && b != "" {
      TextAntisymmetric(a[1..], b[1..]);
      assert a == [a[0]] + a[1..] && b == [b[0]] + b[1..];
    }
  }

  lemma {:induction false} TextTransitive(a: string, b: string, c: string)
    requires TextLe(a, b) && TextLe(b, c)
    ensures TextLe(a, c)
  {
    if a != "" && a[0] == b[0] == c[0] {
      TextTransitive(a[1..], b[1..], c[1..]);
    }
  }

  // A text is before another when it is a beginning of it or has the smaller character where the two
  // first differ.
  lemma {:induction false} TextLeMeans(a: string, b: string)
    ensures TextLe(a, b) <==> a <= b || exists k :: 0 <= k < |a| && k < |b| && a[..k] == b[..k] && a[k] < b[k]
  {
    if a != "" && b != "" && a[0] == b[0] {
      TextLeMeans(a[1..], b[1..]);
      assert a == [a[0]] + a[1..] && b == [b[0]] + b[1..];
      if a <= b {
        assert a[1..] <= b[1..];
      }
      if a[1..] <= b[1..] {
        assert a <= b;
      }
      forall k | 1 <= k < |a| && k < |b|
        ensures a[..k] == b[..k] <==> a[1..][..k - 1] == b[1..][..k - 1]
      {
        assert a[..k] == [a[0]] + a[1..][..k - 1] && b[..k] == [b[0]] + b[1..][..k - 1];
      }
      if exists k :: 0 <= k < |a| && k < |b| && a[..k] == b[..k] && a[k] < b[k] {
        var k :| 0 <= k < |a| && k < |b| && a[..k] == b[..k] && a[k] < b[k];
        assert a[1..][k - 1] < b[1..][k - 1] && a[1..][..k - 1] == b[1..][..k - 1];
      }
      if exists k :: 0 <= k < |a[1..]| && k < |b[1..]| && a[1..][..k] == b[1..][..k] && a[1..][k] < b[1..][k] {
        var k :| 0 <= k < |a[1..]| && k < |b[1..]| && a[1..][..k] == b[1..][..k] && a[1..][k] < b[1..][k];
        assert a[..k + 1] == b[..k + 1] && a[k + 1] < b[k + 1];
      }
    } else if a != "" && b != "" && a[0] < b[0] {
      assert a[..0] == b[..0];
    } else if a != "" && b != "" {
      forall k | 0 < k < |a| && k < |b| ensures a[..k] != b[..k] {
        assert a[..k][0] != b[..k][0];
      }
    }
  }

  type Key = (string, string, string)

  predicate KeyLe(a: Key, b: Key) {
    if a.0 != b.0 then TextLe(a.0, b.0) else if a.1 != b.1 then TextLe(a.1, b.1) else TextLe(a.2, b.2)
  }

  lemma KeyTotal(a: Key, b: Key)
    ensures KeyLe(a, b) || KeyLe(b, a)
  {
    hide TextLe;
    TextTotal(a.0, b.0);
    TextTotal(a.1, b.1);
    TextTotal(a.2, b.2);
  }

  lemma KeyAntisymmetric(a: Key, b: Key)
    requires KeyLe(a, b) && KeyLe(b, a)
    ensures a == b
  {
    hide TextLe;
    if a.0 != b.0 {
      TextAntisymmetric(a.0, b.0);
    } else if a.1 != b.1 {
      TextAntisymmetric(a.1, b.1);
    } else {
      TextAntisymmetric(a.2, b.2);
      assert a == (a.0, a.1, a.2) == b;
    }
  }

  lemma KeyTransitive(a: Key, b: Key, c: Key)
    requires KeyLe(a, b) && KeyLe(b, c)
    ensures KeyLe(a, c)
  {
    hide TextLe;
    if a.0 != b.0 && b.0 != c.0 {
      FirstTransitive(a.0, b.0, c.0);
    } else if a.0 == b.0 == c.0 && a.1 != b.1 && b.1 != c.1 {
      FirstTransitive(a.1, b.1, c.1);
    } else if a.0 == b.0 == c.0 && a.1 == b.1 == c.1 {
      TextTransitive(a.2, b.2, c.2);
    }
  }

  lemma FirstTransitive(a: string, b: string, c: string)
    requires a != b && b != c && TextLe(a, b) && TextLe(b, c)
    ensures a != c && TextLe(a, c)
  {
    TextTransitive(a, b, c);
    if a == c {
      TextAntisymmetric(a, b);
    }
  }
}
