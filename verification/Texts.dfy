// What the C functions do to texts: decimal numbers, strings up to the first NUL, formats.

module Texts {
  import opened Options
  import opened Words
  import opened TextIR

  // ---------- decimal numbers ----------

  predicate IsDigit(c: char) {
    '0' <= c <= '9'
  }

  /** Reads a number from its digits, the most significant one first. */
  function ReadDigits(s: string): int {
    if s == [] then 0 else 10 * ReadDigits(s[..|s| - 1]) + (s[|s| - 1] as int - '0' as int)
  }

  /** Reads a decimal number with an optional minus sign. */
  function ReadDecimal(s: string): int {
    if s != [] && s[0] == '-' then -ReadDigits(s[1..]) else ReadDigits(s)
  }

  lemma {:induction false} DigitsRead(n: nat)
    ensures ReadDigits(Digits(n)) == n && Digits(n) != []
    ensures forall i :: 0 <= i < |Digits(n)| ==> IsDigit(Digits(n)[i])
    ensures n > 0 ==> Digits(n)[0] != '0'
    ensures n == 0 ==> Digits(n) == "0"
    decreases n
  {
    var d := [('0' as int + n % 10) as char];
    if n < 10 {
      assert d[..0] == [];
    } else {
      DigitsRead(n / 10);
      assert (Digits(n / 10) + d)[..|Digits(n / 10)|] == Digits(n / 10);
    }
  }

  /** Digits after an optional minus sign, and no leading zero but in "0". */
  predicate IsDecimal(s: string) {
    var t := if s != [] && s[0] == '-' then s[1..] else s;
    t != [] && (forall i :: 0 <= i < |t| ==> IsDigit(t[i])) && (t[0] == '0' ==> s == "0")
  }

  /** What %d writes for a number reads back as the number, in 32-bit two's complement. */
  lemma DecimalReads(n: int)
    ensures ReadDecimal(Decimal(n)) == Signed(I32, n) && IsDecimal(Decimal(n))
  {
    var m := Signed(I32, n);
    DigitsRead(if m < 0 then -m else m);
    hide Digits, Signed, ReadDigits;
    if m < 0 {
      assert Decimal(n)[1..] == Digits(-m);
    }
  }

  // ---------- strings as C sees them ----------

  /** The characters before the first NUL. */
  lemma {:induction false} CStringIs(s: string)
    ensures CString(s) <= s && '\0' !in CString(s)
    ensures |CString(s)| < |s| ==> s[|CString(s)|] == '\0'
    decreases |s|
  {
    if s != [] && s[0] != '\0' {
      CStringIs(s[1..]);
    }
  }

  lemma {:induction false} CStringWhole(s: string)
    ensures CString(s) == s <==> '\0' !in s
  {
    CStringIs(s);
  }

  /** Up to the first NUL, or whole. */
  lemma {:induction false} CStringCut(s: string, k: nat)
    requires k <= |s| && '\0' !in s[..k] && (k < |s| ==> s[k] == '\0')
    ensures CString(s) == s[..k]
    decreases k
  {
    if k > 0 {
      assert s[0] == s[..k][0] && s[1..][..k - 1] == s[..k][1..];
      CStringCut(s[1..], k - 1);
      assert s[..k] == [s[0]] + s[1..][..k - 1];
    }
  }

  // ---------- formats ----------

  /** A text with every percent sign doubled. */
  function Doubling(t: string): string {
    if t == [] then [] else (if t[0] == '%' then "%%" else [t[0]]) + Doubling(t[1..])
  }

  lemma {:induction false} FormatsBack(t: string)
    ensures Format(Doubling(t)) == Some(t)
    decreases |t|
  {
    if t != [] {
      FormatsBack(t[1..]);
      var s := Doubling(t);
      if t[0] == '%' {
        assert s[0] == '%' && s[1] == '%' && s[2..] == Doubling(t[1..]);
      } else {
        assert s[0] == t[0] && s[1..] == Doubling(t[1..]);
      }
      assert [t[0]] + t[1..] == t;
    }
  }

  lemma {:induction false} OnlyDoubled(s: string)
    requires Format(s).Some?
    ensures s == Doubling(Format(s).value)
    decreases |s|
  {
    if s != [] {
      if s[0] != '%' {
        OnlyDoubled(s[1..]);
        var t := Format(s).value;
        assert t[0] == s[0] && t[1..] == Format(s[1..]).value;
      } else {
        OnlyDoubled(s[2..]);
        var t := Format(s).value;
        assert t[0] == '%' && t[1..] == Format(s[2..]).value;
        assert "%%" + s[2..] == s;
      }
    }
  }

  /**
   * printf without arguments writes t exactly for the format that is t with every percent sign doubled; every other
   * use of a percent sign asks for an argument.
   */
  lemma {:induction false} FormatIff(s: string, t: string)
    ensures Format(s) == Some(t) <==> s == Doubling(t)
  {
    FormatsBack(t);
    if Format(s) == Some(t) {
      OnlyDoubled(s);
    }
    hide Format, Doubling;
  }
}
