/**
 * The inspector's multi-selection display value: when several objects are
 * selected, a field shows their common value, or a "mixed" marker when they
 * disagree. Numbers agree when they lie within 0.0001 of the first one;
 * everything else must be identical to the first one.
 */
module Inspector {
  /** A field value: a number, or any other value compared by identity. */
  datatype FieldValue<T> = Number(n: real) | Other(v: T)

  /** `getCommonValue`'s result: the shared value, or `MIXED_VALUE` ('---'). */
  datatype CommonValue<T> = Mixed | Common(value: FieldValue<T>)

  /** The tolerance within which two numbers count as the same. */
  const Tolerance: real := 0.0001

  function Abs(x: real): real {
    if x < 0.0 then -x else x
  }

  /** Whether `current` agrees with `first`: close numbers, or identical values. */
  predicate Agrees<T(==)>(first: FieldValue<T>, current: FieldValue<T>) {
    if first.Number? && current.Number? then Abs(first.n - current.n) < Tolerance
    else current == first
  }

  /** A value agrees with itself, and agreement between numbers is symmetric. */
  lemma AgreesReflexiveSymmetric<T>(a: FieldValue<T>, b: FieldValue<T>)
    ensures Agrees(a, a)
    ensures Agrees(a, b) <==> Agrees(b, a)
  {
  }

  /**
   * Agreement is not transitive: 0.00005 is within the tolerance of both 0
   * and 0.0001, which are not within it of each other. Since only the first
   * element is compared, the selection [0.00005, 0, 0.0001] is shown as
   * 0.00005 although two of its values differ by the whole tolerance.
   */
  lemma AgreesNotTransitive()
    ensures Agrees<int>(Number(0.00005), Number(0.0)) && Agrees<int>(Number(0.00005), Number(0.0001))
    ensures !Agrees<int>(Number(0.0), Number(0.0001))
  {
  }

  /**
   * `getCommonValue(values)`: `MIXED_VALUE` for an empty list, otherwise the
   * first value when every later value agrees with it, and `MIXED_VALUE` as
   * soon as one does not.
   */
  method GetCommonValue<T(==)>(values: seq<FieldValue<T>>) returns (r: CommonValue<T>)
    ensures r.Common? ==> values != [] && r.value == values[0]
    ensures r.Common? <==> values != [] && forall i :: 1 <= i < |values| ==> Agrees(values[0], values[i])
    ensures |values| == 1 ==> r == Common(values[0])
  {
    if |values| == 0 {
      return Mixed;
    }
    var first := values[0];
    for i := 1 to |values|
      invariant forall j :: 1 <= j < i ==> Agrees(first, values[j])
    {
      var current := values[i];
      if first.Number? && current.Number? {
        if Abs(first.n - current.n) >= Tolerance {
          return Mixed;
        }
      } else {
        if current != first {
          return Mixed;
        }
      }
    }
    return Common(first);
  }
}
