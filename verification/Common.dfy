/** Small shared definitions. */
module Common {
  datatype Option<+T> = None | Some(value: T)

  lemma MulMonotone(n: nat, a: nat, b: nat)
    requires a <= b
    ensures n * a <= n * b
  {
  }

  lemma MulLess(n: nat, a: nat, b: nat)
    requires n * a < n * b
    ensures a < b
  {
    if b <= a {
      MulMonotone(n, b, a);
    }
  }
}
