/** Sums over dictionaries, and sizes of sets cut into classes. */
module Sums {

  ghost function Total(m: map<string, nat>): nat
    decreases m.Keys
  {
    if m == map[] then 0
    else
      var k :| k in m;
      assert (m - {k}).Keys < m.Keys;
      m[k] + Total(m - {k})
  }

  lemma {:induction false} TotalWithout(m: map<string, nat>, k: string)
    requires k in m
    ensures Total(m) == m[k] + Total(m - {k})
    decreases m.Keys
  {
    assert m != map[];
    var pick :| pick in m && Total(m) == m[pick] + Total(m - {pick});
    if pick != k {
      assert (m - {pick}).Keys < m.Keys && (m - {k}).Keys < m.Keys;
      TotalWithout(m - {pick}, k);
      TotalWithout(m - {k}, pick);
      assert m - {pick} - {k} == m - {k} - {pick};
    }
  }

  lemma {:induction false} TotalOfZeros(m: map<string, nat>)
    requires forall c :: c in m ==> m[c] == 0
    ensures Total(m) == 0
    decreases m.Keys
  {
    if m != map[] {
      var c :| c in m;
      assert (m - {c}).Keys < m.Keys;
      TotalOfZeros(m - {c});
      TotalWithout(m, c);
    }
  }

  lemma TotalUpdate(m: map<string, nat>, c: string, n: nat)
    requires c in m
    ensures Total(m[c := n]) == Total(m) - m[c] + n
  {
    TotalWithout(m, c);
    TotalWithout(m[c := n], c);
    assert m - {c} == m[c := n] - {c};
  }

  function InClass(s: set<string>, classOf: map<string, string>, c: string): set<string> {
    set k | k in s && k in classOf && classOf[k] == c
  }

  /** Sizes of the classes of a set add up to the size of the set. */
  lemma {:induction false} ClassesPartition(s: set<string>, classOf: map<string, string>, sizes: map<string, nat>)
    requires forall k :: k in s ==> k in classOf && classOf[k] in sizes
    requires forall c :: c in sizes ==> sizes[c] == |InClass(s, classOf, c)|
    ensures Total(sizes) == |s|
  {
    if s == {} {
      assert forall c :: InClass(s, classOf, c) == {};
      TotalOfZeros(sizes);
    } else {
      var k :| k in s;
      var c := classOf[k];
      var rest := s - {k};
      assert InClass(s, classOf, c) == InClass(rest, classOf, c) + {k};
      var fewer := sizes[c := |InClass(rest, classOf, c)|];
      forall d | d in fewer ensures fewer[d] == |InClass(rest, classOf, d)| {
        if d != c {
          assert InClass(s, classOf, d) == InClass(rest, classOf, d);
        }
      }
      ClassesPartition(rest, classOf, fewer);
      TotalUpdate(sizes, c, fewer[c]);
    }
  }
}
