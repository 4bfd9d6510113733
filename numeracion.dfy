/** The account-number generator of the lifecycle services:
    `String.valueOf((long) (Math.random() * 10000000000L))`. The random draw is
    a parameter `sorteo` in [0, 10^10); what is modelled is its decimal rendering. */
module Numeracion {
  import opened CuentaModelo
  import opened AccountModelo

  function Pow10(k: nat): (p: nat)
    ensures p >= 1
  {
    if k == 0 then 1 else 10 * Pow10(k - 1)
  }

  /** The multiplier applied to the random draw: 10^10. */
  const Tope: nat := 10000000000

  function DigitoChar(d: nat): (ch: char)
    requires d < 10
    ensures EsDigito(ch)
  {
    ('0' as int + d) as char
  }

  function ValorDigito(ch: char): (d: nat)
    requires EsDigito(ch)
    ensures d < 10
    ensures DigitoChar(d) == ch
  {
    ch as int - '0' as int
  }

  /** `String.valueOf(long)` for a non-negative value: decimal digits, no
      leading zero except for 0 itself. */
  function Decimal(n: nat): (s: string)
    ensures 1 <= |s| && SoloDigitos(s)
    ensures s[0] == '0' ==> n == 0
    decreases n
  {
    if n < 10 then [DigitoChar(n)] else Decimal(n / 10) + [DigitoChar(n % 10)]
  }

  /** The value of a string of decimal digits. */
  function Valor(s: string): nat
    requires SoloDigitos(s)
    decreases |s|
  {
    if s == [] then 0 else 10 * Valor(s[..|s| - 1]) + ValorDigito(s[|s| - 1])
  }

  /** Rendering loses nothing: reading the digits back gives the number. */
  lemma {:induction false} ValorDeDecimal(n: nat)
    ensures Valor(Decimal(n)) == n
    decreases n
  {
    var s := Decimal(n);
    if n < 10 {
      assert s[..|s| - 1] == [];
      assert ValorDigito(DigitoChar(n)) == n;
    } else {
      ValorDeDecimal(n / 10);
      assert s[..|s| - 1] == Decimal(n / 10);
      assert ValorDigito(DigitoChar(n % 10)) == n % 10;
    }
  }

  /** A number has at most k digits exactly when it is below 10^k. */
  lemma {:induction false} LongitudDecimal(n: nat, k: nat)
    requires k >= 1
    ensures |Decimal(n)| <= k <==> n < Pow10(k)
    decreases n
  {
    if n < 10 {
      assert Pow10(k) == 10 * Pow10(k - 1);
    } else if k == 1 {
      assert |Decimal(n)| == |Decimal(n / 10)| + 1;
    } else {
      LongitudDecimal(n / 10, k - 1);
      assert Pow10(k) == 10 * Pow10(k - 1);
    }
  }

  /** generarNumeroCuenta / generateAccountNumber, given the draw. */
  function GenerarNumeroCuenta(sorteo: nat): (s: string)
    requires sorteo < Tope
    ensures 1 <= |s| <= 10 && SoloDigitos(s)
    ensures Valor(s) == sorteo
  {
    LongitudDecimal(sorteo, 10);
    ValorDeDecimal(sorteo);
    Decimal(sorteo)
  }

  /** A generated number meets the 10-to-12-digit pattern of `Cuenta`, and the
      exactly-10-digit pattern of `Account`, only when the draw is at least 10^9:
      smaller draws render with fewer than 10 digits, since nothing pads them. */
  lemma NumeroGeneradoCumplePatron(sorteo: nat)
    requires sorteo < Tope
    ensures NumeroCuentaValido(GenerarNumeroCuenta(sorteo)) <==> sorteo >= Pow10(9)
    ensures NumeroAccountValido(GenerarNumeroCuenta(sorteo)) <==> sorteo >= Pow10(9)
  {
    LongitudDecimal(sorteo, 9);
    LongitudDecimal(sorteo, 10);
  }
}
