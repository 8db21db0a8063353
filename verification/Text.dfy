/** Strings as sequences of UTF-16 code units, and their order. */
module Text {
  import opened Sorting

  type CodeUnit = c: nat | c < 0x1_0000
  type Text = seq<CodeUnit>

  /** Code units decide, and a prefix comes first. */
  predicate LeqText(a: Text, b: Text) {
    if a == [] then true
    else if b == [] then false
    else if a[0] != b[0] then a[0] < b[0]
    else LeqText(a[1..], b[1..])
  }

  lemma {:induction false} LeqTextTotal(a: Text, b: Text)
    ensures LeqText(a, b) || LeqText(b, a)
  {
    if a != [] && b != [] {
      LeqTextTotal(a[1..], b[1..]);
    }
  }

  lemma {:induction false} LeqTextAntisymmetric(a: Text, b: Text)
    requires LeqText(a, b) && LeqText(b, a)
    ensures a == b
  {
    if a != [] && b != [] {
      LeqTextAntisymmetric(a[1..], b[1..]);
      assert a == [a[0]] + a[1..] && b == [b[0]] + b[1..];
    }
  }

  lemma {:induction false} LeqTextTransitive(a: Text, b: Text, c: Text)
    requires LeqText(a, b) && LeqText(b, c)
    ensures LeqText(a, c)
  {
    if a != [] && a[0] == b[0] == c[0] {
      LeqTextTransitive(a[1..], b[1..], c[1..]);
    }
  }

  lemma TextOrder()
    ensures TotalOrder(LeqText)
  {
    forall a, b ensures LeqText(a, b) || LeqText(b, a) {
      LeqTextTotal(a, b);
    }
    forall a, b | LeqText(a, b) && LeqText(b, a) ensures a == b {
      LeqTextAntisymmetric(a, b);
    }
    forall a, b, c | LeqText(a, b) && LeqText(b, c) ensures LeqText(a, c) {
      LeqTextTransitive(a, b, c);
    }
  }

  // ----- what the order is -----

  /** One is a proper prefix of the other, or has the smaller code unit where they first differ. */
  ghost predicate Precedes(a: Text, b: Text) {
    exists n :: 0 <= n <= |a| && n < |b| && a[..n] == b[..n] && (n == |a| || a[n] < b[n])
  }

  lemma PrecedesInTail(a: Text, b: Text)
    requires a != [] && b != [] && a[0] == b[0]
    ensures Precedes(a, b) <==> Precedes(a[1..], b[1..])
  {
    var a', b' := a[1..], b[1..];
    if Precedes(a', b') {
      var n :| 0 <= n <= |a'| && n < |b'| && a'[..n] == b'[..n] && (n == |a'| || a'[n] < b'[n]);
      assert a[..n + 1] == [a[0]] + a'[..n] && b[..n + 1] == [b[0]] + b'[..n];
    }
    if Precedes(a, b) {
      var n :| 0 <= n <= |a| && n < |b| && a[..n] == b[..n] && (n == |a| || a[n] < b[n]);
      assert n > 0 && a'[..n - 1] == a[..n][1..] && b'[..n - 1] == b[..n][1..];
    }
  }

  lemma {:induction false} LeqTextMeans(a: Text, b: Text)
    ensures LeqText(a, b) <==> a == b || Precedes(a, b)
  {
    if a == [] || b == [] {
      if a == [] && b != [] {
        assert a[..0] == b[..0];
      }
    } else if a[0] != b[0] {
      assert a[..0] == b[..0];
      forall n | 0 < n <= |a| && n < |b| ensures a[..n] != b[..n] {
        assert a[..n][0] != b[..n][0];
      }
    } else {
      LeqTextMeans(a[1..], b[1..]);
      PrecedesInTail(a, b);
      assert a == [a[0]] + a[1..] && b == [b[0]] + b[1..];
    }
  }

  /** Each text comes before every later one. */
  ghost predicate Ascending(ts: seq<Text>) {
    forall i, j :: 0 <= i < j < |ts| ==> Precedes(ts[i], ts[j])
  }

  /** Sorting distinct texts makes them ascend. */
  lemma SortAscends(ts: seq<Text>)
    requires HasNoDuplicate(ts)
    ensures Ascending(Sort(ts, LeqText)) && multiset(Sort(ts, LeqText)) == multiset(ts)
  {
    TextOrder();
    SortIsSorted(ts, LeqText);
    var sorted := Sort(ts, LeqText);
    DistinctByCount(ts);
    DistinctByCount(sorted);
    forall i, j | 0 <= i < j < |sorted| ensures Precedes(sorted[i], sorted[j]) {
      LeqTextMeans(sorted[i], sorted[j]);
    }
  }
}
