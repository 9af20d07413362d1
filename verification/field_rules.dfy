/** The field checks the form schemas combine: a string of a minimum length, a
    number (never `NaN`) of a minimum value, and an integer of a minimum value.
    Number fields hold what `parseFloat`/`parseInt` made of the input, so `None`
    is `NaN`, which the number check rejects. */
module FieldRules {
  import opened Wrappers

  predicate MinLength(s: string, n: nat) {
    |s| >= n
  }

  predicate NumberAtLeast(v: Option<real>, lo: real) {
    v.Some? && v.value >= lo
  }

  predicate IsInteger(x: real) {
    x.Floor as real == x
  }

  predicate IntegerAtLeast(v: Option<real>, lo: real) {
    NumberAtLeast(v, lo) && IsInteger(v.value)
  }
}
