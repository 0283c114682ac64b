/** What several modules use. */
module Common {

  datatype Option<+T> = None | Some(value: T)

  predicate Distinct<T(==)>(q: seq<T>) {
    forall i, j :: 0 <= i < j < |q| ==> q[i] != q[j]
  }

  /** A sequence of different elements without the one at place k. */
  lemma WithoutOne<T>(s: seq<T>, k: nat, t: seq<T>)
    requires k < |s| && Distinct(s) && t == s[..k] + s[k + 1..]
    ensures |t| == |s| - 1 && Distinct(t)
    ensures forall i {:trigger t[i]} :: 0 <= i < |t| ==> t[i] == s[if i < k then i else i + 1]
  {
  }
}
