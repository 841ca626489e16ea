/** `claimstone/store.py`: append-only ledgers, read as the last row per key. */
module Ledger {
  import opened Seqs

  /** `latest_by`: rows without a key are skipped, a later row replaces an earlier one. */
  function LatestBy<K(==), R>(rows: seq<R>, key: R -> Option<K>): map<K, R> {
    if rows == [] then map[]
    else
      var front, row := LatestBy(rows[..|rows| - 1], key), rows[|rows| - 1];
      if key(row).None? then front else front[key(row).value := row]
  }

  method ReadLatestBy<K(==), R>(rows: seq<R>, key: R -> Option<K>) returns (out: map<K, R>)
    ensures out == LatestBy(rows, key)
  {
    out := map[];
    for i := 0 to |rows|
      invariant out == LatestBy(rows[..i], key)
    {
      assert rows[..i + 1][..i] == rows[..i];
      if key(rows[i]).Some? {
        out := out[key(rows[i]).value := rows[i]];
      }
    }
    assert rows[..|rows|] == rows;
  }

  lemma {:induction false} LatestIsLast<K, R>(rows: seq<R>, key: R -> Option<K>, k: K) returns (i: int)
    ensures -1 <= i < |rows| && (k in LatestBy(rows, key) <==> i >= 0)
    ensures i >= 0 ==> LatestBy(rows, key)[k] == rows[i] && key(rows[i]) == Some(k)
    ensures forall j :: i < j < |rows| ==> key(rows[j]) != Some(k)
  {
    i := -1;
    if rows != [] {
      var n := |rows| - 1;
      if key(rows[n]) == Some(k) {
        i := n;
      } else {
        i := LatestIsLast(rows[..n], key, k);
      }
    }
  }

  lemma LatestSnoc<K, R>(rows: seq<R>, row: R, key: R -> Option<K>)
    ensures LatestBy(rows + [row], key) ==
      if key(row).None? then LatestBy(rows, key) else LatestBy(rows, key)[key(row).value := row]
  {
    assert (rows + [row])[..|rows|] == rows;
  }
}
