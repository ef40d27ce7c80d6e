/** Document identifiers of the document service: `"{user}_{n}"` (backend/main.py:173). */
module PdfIds {

  /** The character of a decimal digit. */
  function Digit(d: nat): (c: char)
    requires d < 10
    ensures '0' <= c <= '9'
    ensures (c as int) - ('0' as int) == d
  {
    ('0' as int + d) as char
  }

  /** Every character of `s` is a decimal digit. */
  predicate IsDigits(s: string)
  {
    forall i :: 0 <= i < |s| ==> '0' <= s[i] <= '9'
  }

  /** The decimal rendering of a non-negative integer, as Python's f-string formats it. */
  function Decimal(n: nat): (s: string)
    ensures |s| >= 1 && IsDigits(s)
    ensures s[0] == '0' <==> n == 0
    decreases n
  {
    if n < 10 then [Digit(n)] else Decimal(n / 10) + [Digit(n % 10)]
  }

  /** The number a string of decimal digits denotes (the reading of `int(s)`). */
  function DecimalValue(s: string): nat
    requires IsDigits(s)
    decreases |s|
  {
    if s == [] then 0
    else DecimalValue(s[..|s| - 1]) * 10 + ((s[|s| - 1] as int) - ('0' as int))
  }

  /** Reading back the decimal rendering gives the number that was rendered. */
  lemma {:induction false} DecimalRoundTrip(n: nat)
    ensures DecimalValue(Decimal(n)) == n
    decreases n
  {
    if n >= 10 {
      var s := Decimal(n);
      assert s[..|s| - 1] == Decimal(n / 10);
      DecimalRoundTrip(n / 10);
    } else {
      assert Decimal(n)[..0] == [];
    }
  }

  /** Distinct numbers have distinct renderings. */
  lemma DecimalInjective(a: nat, b: nat)
    requires Decimal(a) == Decimal(b)
    ensures a == b
  {
    DecimalRoundTrip(a);
    DecimalRoundTrip(b);
  }

  /** The identifier of a user's `n`-th uploaded document. */
  function PdfId(user: string, n: nat): (id: string)
    ensures |id| > |user| + 1
    ensures id[..|user|] == user && id[|user|] == '_'
    ensures IsDigits(id[|user| + 1..])
  {
    user + "_" + Decimal(n)
  }

  /** The number of a document is recoverable from its identifier and its owner. */
  lemma PdfIdNumber(user: string, n: nat)
    ensures DecimalValue(PdfId(user, n)[|user| + 1..]) == n
  {
    assert PdfId(user, n)[|user| + 1..] == Decimal(n);
    DecimalRoundTrip(n);
  }

  /** One user's identifiers for two different counts never coincide. */
  lemma PdfIdInjective(user: string, j: nat, k: nat)
    requires PdfId(user, j) == PdfId(user, k)
    ensures j == k
  {
    PdfIdNumber(user, j);
    PdfIdNumber(user, k);
  }
}
