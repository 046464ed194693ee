/** Shared vocabulary. Decimal and float quantities are exact reals throughout the project. */
module Core {

  datatype Option<+T> = None | Some(value: T)

  /** A cancel either returns, with the order gone, or raises, with the order gone or not. */
  datatype CancelReply = CancelDone | CancelFailed(gone: bool)

  function Min(a: real, b: real): (m: real)
    ensures m <= a && m <= b && (m == a || m == b)
  {
    if a <= b then a else b
  }

  function Max(a: real, b: real): (m: real)
    ensures a <= m && b <= m && (m == a || m == b)
  {
    if a >= b then a else b
  }

  /** A product, named so that proofs can treat it as one term. */
  function Times(a: real, b: real): real {
    a * b
  }

  lemma TimesAdds(a: real, b: real, c: real)
    ensures Times(a + b, c) == Times(a, c) + Times(b, c)
    ensures Times(c, a + b) == Times(c, a) + Times(c, b)
  {}

  lemma TimesSubtracts(a: real, b: real, c: real)
    ensures Times(a - b, c) == Times(a, c) - Times(b, c)
    ensures Times(c, a - b) == Times(c, a) - Times(c, b)
  {}

  lemma TimesZero(c: real)
    ensures Times(0.0, c) == 0.0 && Times(c, 0.0) == 0.0 && Times(1.0, c) == c && Times(c, 1.0) == c
  {}

  lemma TimesGrows(a: real, b: real, c: real)
    requires a >= 0.0 && b <= c
    ensures Times(a, b) <= Times(a, c)
  {}

  lemma TimesSign(a: real, b: real)
    requires a >= 0.0 && b >= 0.0
    ensures Times(a, b) >= 0.0
    ensures Times(a, b) == 0.0 <==> a == 0.0 || b == 0.0
  {
    if a > 0.0 && b > 0.0 { assert a * b > 0.0; }
  }

  lemma TimesSquare(a: real)
    ensures Times(a, a) >= 0.0
    ensures Times(a, a) == 0.0 <==> a == 0.0
  {
    if a > 0.0 {
      TimesSign(a, a);
    } else {
      TimesSign(-a, -a);
      TimesNegates(a, a);
      TimesNegates(-a, a);
    }
  }

  lemma TimesNegates(a: real, b: real)
    ensures Times(a, -b) == -Times(a, b) && Times(-a, b) == -Times(a, b)
  {}

  lemma TimesSwaps(a: real, b: real, c: real)
    ensures Times(a, Times(b, c)) == Times(b, Times(a, c)) && Times(a, b) == Times(b, a)
  {}

  lemma TimesQuotient(a: real, b: real)
    requires b > 0.0
    ensures Times(a / b, b) == a
  {}
}
