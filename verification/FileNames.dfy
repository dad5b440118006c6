/** The names of the children's files, as snprintf renders them into a 64-byte buffer. */
module FileNames {

  function Digit(d: nat): char
    requires d < 10
  {
    "0123456789"[d]
  }

  function Decimal(n: nat): string {
    if n < 10 then [Digit(n)] else Decimal(n / 10) + [Digit(n % 10)]
  }

  /** The %d conversion. */
  function DecimalInt(n: int): string {
    if n < 0 then "-" + Decimal(-n) else Decimal(n)
  }

  function ValueOf(s: string): int {
    if s == [] then 0 else 10 * ValueOf(s[..|s|-1]) + (s[|s|-1] as int - '0' as int)
  }

  /** A buffer of 64 bytes keeps 63 characters. */
  function Truncated(s: string): string {
    if |s| <= 63 then s else s[..63]
  }

  function Name(id: int): string {
    Truncated("test" + DecimalInt(id) + ".file")
  }

  const MAIN_FILE: string := "test.file"

  lemma {:induction false} DecimalRoundTrip(n: nat)
    ensures ValueOf(Decimal(n)) == n
  {
    if n < 10 {
      assert Decimal(n)[..0] == [];
    } else {
      DecimalRoundTrip(n / 10);
      assert Decimal(n)[..|Decimal(n)| - 1] == Decimal(n / 10);
    }
  }

  lemma DigitIsItself(d: nat)
    requires d < 10
    ensures Digit(d) as int == 48 + d
  {
  }

  /** Only digits, no leading zero, and a single digit is itself. */
  lemma {:induction false} DecimalForm(n: nat)
    ensures Decimal(n) != [] && forall c :: c in Decimal(n) ==> '0' <= c <= '9'
    ensures 0 < n ==> Decimal(n)[0] != '0'
    ensures n < 10 ==> |Decimal(n)| == 1 && Decimal(n)[0] as int == 48 + n
  {
    hide Digit;
    DigitIsItself(n % 10);
    if n < 10 {
    } else {
      DecimalForm(n / 10);
    }
  }

  function Power10(k: nat): nat {
    if k == 0 then 1 else 10 * Power10(k - 1)
  }

  lemma {:induction false} DecimalLength(n: nat, k: nat)
    requires 1 <= k && n < Power10(k)
    ensures 1 <= |Decimal(n)| <= k
  {
    if n < 10 {
    } else {
      DecimalLength(n / 10, k - 1);
    }
  }

  /** For a 32-bit id nothing is cut off. */
  lemma NameFits(id: nat)
    requires id <= 0x7fff_ffff
    ensures Name(id) == "test" + Decimal(id) + ".file"
    ensures |Decimal(id)| >= 1
  {
    assert Power10(10) == 10_000_000_000 by {
      assert Power10(5) == 100_000;
    }
    DecimalLength(id, 10);
  }

  /** Children with different ids use different files, and none uses the main thread's. */
  lemma NamesDiffer(i: nat, j: nat)
    requires i <= 0x7fff_ffff && j <= 0x7fff_ffff
    ensures Name(i) == Name(j) ==> i == j
    ensures Name(i) != MAIN_FILE
  {
    NameFits(i);
    NameFits(j);
    assert |Name(i)| > |MAIN_FILE|;
    if Name(i) == Name(j) {
      assert Name(i)[4..|Name(i)| - 5] == Decimal(i);
      assert Name(j)[4..|Name(j)| - 5] == Decimal(j);
      DecimalRoundTrip(i);
      DecimalRoundTrip(j);
    }
  }
}
