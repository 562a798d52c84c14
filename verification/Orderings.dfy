module Orderings {
  datatype Ordering = Less | Equal | Greater

  function CompareNumbers(m: int, n: int): Ordering {
    if m < n then Less else if m > n then Greater else Equal
  }
}
