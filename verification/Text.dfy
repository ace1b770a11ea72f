/** Strings as the system orders and renders them. */
module Text {
  /** Lexicographic order by code point, which on UTF-8 is the byte order that `str::cmp` and
      SQLite's BINARY collation use. */
  predicate Below(a: string, b: string) {
    b != [] && (a == [] || a[0] < b[0] || (a[0] == b[0] && Below(a[1..], b[1..])))
  }

  lemma {:induction false} BelowTotal(a: string, b: string)
    ensures a == b || Below(a, b) || Below(b, a)
  {
    if a != [] && b != [] && a[0] == b[0] {
      BelowTotal(a[1..], b[1..]);
      assert a == [a[0]] + a[1..] && b == [b[0]] + b[1..];
    }
  }

  lemma {:induction false} BelowTransitive(a: string, b: string, c: string)
    requires Below(a, b) && Below(b, c)
    ensures Below(a, c)
  {
    if a != [] && a[0] == b[0] && b[0] == c[0] {
      BelowTransitive(a[1..], b[1..], c[1..]);
    }
  }

  lemma {:induction false} BelowIrreflexive(a: string)
    ensures !Below(a, a)
  {
    if a != [] {
      BelowIrreflexive(a[1..]);
    }
  }

  /** Decimal digits, most significant first. */
  function Decimal(n: nat): (s: string)
    ensures s != []
    ensures forall c :: c in s ==> '0' <= c <= '9'
  {
    var digit := '0' + (n % 10) as char;
    if n < 10 then [digit] else Decimal(n / 10) + [digit]
  }

  lemma {:induction false} DecimalInjective(m: nat, n: nat)
    requires Decimal(m) == Decimal(n)
    ensures m == n
  {
    var s, t := Decimal(m), Decimal(n);
    var dm, dn := '0' + (m % 10) as char, '0' + (n % 10) as char;
    assert s[|s| - 1] == dm && t[|t| - 1] == dn;
    assert m % 10 == n % 10;
    if m >= 10 && n >= 10 {
      assert s[..|s| - 1] == Decimal(m / 10) && t[..|t| - 1] == Decimal(n / 10);
      DecimalInjective(m / 10, n / 10);
    }
  }

  /** What a string of decimal digits stands for. */
  function DecimalValue(s: string): int {
    if s == [] then 0 else 10 * DecimalValue(s[..|s| - 1]) + (s[|s| - 1] as int - '0' as int)
  }

  /** The rendering stands for the number. */
  lemma {:induction false} DecimalReads(n: nat)
    ensures DecimalValue(Decimal(n)) == n
  {
    if n >= 10 {
      DecimalReads(n / 10);
      assert Decimal(n)[..|Decimal(n)| - 1] == Decimal(n / 10);
    } else {
      assert Decimal(n)[..0] == [];
    }
  }

  /** Signed rendering, as Rust's `Display` for i64. */
  function Signed(n: int): string {
    if n < 0 then "-" + Decimal(-n) else Decimal(n)
  }

  lemma SignedInjective(m: int, n: int)
    requires Signed(m) == Signed(n)
    ensures m == n
  {
    assert m < 0 <==> Signed(m)[0] == '-' by { assert m >= 0 ==> Signed(m)[0] in Decimal(m); }
    assert n < 0 <==> Signed(n)[0] == '-' by { assert n >= 0 ==> Signed(n)[0] in Decimal(n); }
    if m < 0 {
      assert Signed(m)[1..] == Decimal(-m) && Signed(n)[1..] == Decimal(-n);
      DecimalInjective(-m, -n);
    } else {
      DecimalInjective(m, n);
    }
  }

  /** Bytes of a character in UTF-8. */
  function Utf8Width(c: char): (n: nat)
    ensures 1 <= n <= 4
  {
    if c as int < 0x80 then 1 else if c as int < 0x800 then 2 else if c as int < 0x1_0000 then 3 else 4
  }

  /** `str::len`: bytes, not characters. */
  function Utf8Length(s: string): (n: nat)
    ensures |s| <= n <= 4 * |s|
  {
    if s == [] then 0 else Utf8Length(s[..|s| - 1]) + Utf8Width(s[|s| - 1])
  }

  predicate Ascii(s: string) { forall c :: c in s ==> c as int < 0x80 }

  /** ASCII text has as many bytes as characters. */
  lemma {:induction false} AsciiLength(s: string)
    requires Ascii(s)
    ensures Utf8Length(s) == |s|
  {
    if s != [] {
      assert s[|s| - 1] in s;
      var init := s[..|s| - 1];
      forall c | c in init ensures c as int < 0x80 {
        assert c in s;
      }
      AsciiLength(s[..|s| - 1]);
    }
  }

  /** Text of one repeated character. */
  lemma {:induction false} RepeatedLength(s: string, c: char)
    requires forall x :: x in s ==> x == c
    ensures Utf8Length(s) == |s| * Utf8Width(c)
  {
    if s != [] {
      assert s[|s| - 1] in s;
      var init := s[..|s| - 1];
      forall x | x in init ensures x == c {
        assert x in s;
      }
      RepeatedLength(s[..|s| - 1], c);
    }
  }
}
