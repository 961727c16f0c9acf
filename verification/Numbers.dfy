/** The smaller and the larger of two numbers, and the sum of many. */
module Numbers {
  function Min(x: real, y: real): real { if x <= y then x else y }

  function Max(x: real, y: real): real { if x >= y then x else y }

  function MaxNat(x: nat, y: nat): nat { if x >= y then x else y }

  function Sum(xs: seq<real>): real { if xs == [] then 0.0 else Sum(xs[..|xs| - 1]) + xs[|xs| - 1] }
}
