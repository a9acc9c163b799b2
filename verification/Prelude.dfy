/** Small vocabulary shared by the models: optional columns, string order, map lookup. */
module Prelude {

  datatype Option<+T> = None | Some(value: T)

  function Lookup<K, V>(table: map<K, V>, key: K): Option<V> {
    if key in table then Some(table[key]) else None
  }

  /** `a <= b` on strings, character by character, a proper prefix being smaller. */
  predicate StrLe(a: string, b: string) {
    a == "" || (b != "" && (a[0] < b[0] || (a[0] == b[0] && StrLe(a[1..], b[1..]))))
  }

  lemma {:induction false} StrLeTotal(a: string, b: string)
    ensures StrLe(a, b) || StrLe(b, a)
  {
    if a != "" && b != "" && a[0] == b[0] { StrLeTotal(a[1..], b[1..]); }
  }

  lemma {:induction false} StrLeAntisymmetric(a: string, b: string)
    requires StrLe(a, b) && StrLe(b, a)
    ensures a == b
  {
    if a != "" && b != "" {
      StrLeAntisymmetric(a[1..], b[1..]);
      assert a == [a[0]] + a[1..] && b == [b[0]] + b[1..];
    }
  }

  lemma {:induction false} StrLeTransitive(a: string, b: string, c: string)
    requires StrLe(a, b) && StrLe(b, c)
    ensures StrLe(a, c)
  {
    if a != "" && a[0] == b[0] == c[0] { StrLeTransitive(a[1..], b[1..], c[1..]); }
  }

  /** The order is decided where two strings first differ; a proper prefix comes first. */
  lemma {:induction false} StrLeAtFirstDifference(common: string, a: string, b: string)
    ensures StrLe(common, common + a)
    ensures a != "" ==> !StrLe(common + a, common)
    ensures a != "" && b != "" && a[0] < b[0] ==> StrLe(common + a, common + b) && !StrLe(common + b, common + a)
  {
    if common != "" {
      assert (common + a)[1..] == common[1..] + a && (common + b)[1..] == common[1..] + b;
      StrLeAtFirstDifference(common[1..], a, b);
    } else {
      assert common + a == a && common + b == b;
    }
  }
}
