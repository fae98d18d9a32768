/** Text both parsers need: white space, digits and decimal numbers. */
module Text {
  import opened Types

  predicate IsDigit(c: char) { '0' <= c <= '9' }

  predicate IsHexDigit(c: char) { IsDigit(c) || 'a' <= c <= 'f' || 'A' <= c <= 'F' }

  function HexValue(c: char): nat
    requires IsHexDigit(c)
  {
    if IsDigit(c) then c as int - '0' as int
    else if 'a' <= c then c as int - 'a' as int + 10
    else c as int - 'A' as int + 10
  }

  /** Digits in a base of up to 16; the caller has checked that they are digits of that base. */
  function Number(s: string, base: nat): nat
    requires forall c :: c in s ==> IsHexDigit(c)
  {
    if s == "" then 0 else Number(s[..|s| - 1], base) * base + HexValue(s[|s| - 1])
  }

  function StripPrefix(s: string, prefix: string): Option<string> {
    if prefix <= s then Some(s[|prefix|..]) else None
  }

  /** Unicode White_Space. */
  predicate IsSpace(c: char) {
    || '\t' <= c <= '\r' || c == ' ' || c == '\U{85}' || c == '\U{A0}' || c == '\U{1680}'
    || '\U{2000}' <= c <= '\U{200A}' || c == '\U{2028}' || c == '\U{2029}' || c == '\U{202F}'
    || c == '\U{205F}' || c == '\U{3000}'
  }

  function TrimStart(s: string): string {
    if s != "" && IsSpace(s[0]) then TrimStart(s[1..]) else s
  }

  function TrimEnd(s: string): string {
    if s != "" && IsSpace(s[|s| - 1]) then TrimEnd(s[..|s| - 1]) else s
  }

  function Trim(s: string): string {
    TrimEnd(TrimStart(s))
  }

  function Decimal(n: nat): string {
    if n < 10 then [DigitChar(n)] else Decimal(n / 10) + [DigitChar(n % 10)]
  }

  function DigitChar(n: nat): char
    requires n < 10
  {
    ('0' as int + n) as char
  }

  // ----------------------------------------------------------- what they come to

  /** The white space of Unicode, by code point. */
  lemma SpacesAre(c: char)
    ensures var n := c as int;
            IsSpace(c) <==> || n in {32, 0x85, 0xA0, 0x1680, 0x2028, 0x2029, 0x202F, 0x205F, 0x3000}
                            || 9 <= n <= 13 || 0x2000 <= n <= 0x200A
  {
  }

  lemma {:induction false} DecimalReads(n: nat)
    ensures var d := Decimal(n);
            d != "" && (forall i :: 0 <= i < |d| ==> IsDigit(d[i])) && Number(d, 10) == n
  {
    if n < 10 {
      assert Decimal(n)[..0] == "";
    } else {
      DecimalReads(n / 10);
      var d := Decimal(n);
      assert d[..|d| - 1] == Decimal(n / 10);
    }
  }

  predicate AllSpace(s: string) {
    forall i :: 0 <= i < |s| ==> IsSpace(s[i])
  }

  lemma {:induction false} TrimStartSpace(a: string, x: string)
    requires AllSpace(a)
    ensures TrimStart(a + x) == TrimStart(x)
  {
    if a == "" {
      assert a + x == x;
    } else {
      assert (a + x)[1..] == a[1..] + x;
      TrimStartSpace(a[1..], x);
    }
  }

  lemma {:induction false} TrimEndSpace(x: string, b: string)
    requires AllSpace(b)
    ensures TrimEnd(x + b) == TrimEnd(x)
    decreases |b|
  {
    if b == "" {
      assert x + b == x;
    } else {
      assert (x + b)[..|x + b| - 1] == x + b[..|b| - 1];
      TrimEndSpace(x, b[..|b| - 1]);
    }
  }

  predicate Tight(x: string) {
    x != "" && !IsSpace(x[0]) && !IsSpace(x[|x| - 1])
  }

  lemma TrimAround(a: string, x: string, b: string)
    requires AllSpace(a) && AllSpace(b) && Tight(x)
    ensures Trim(a + x + b) == x && TrimStart(a + x + b) == x + b
  {
    assert a + x + b == a + (x + b);
    TrimStartSpace(a, x + b);
    TrimEndSpace(x, b);
  }

  lemma TrimSpace(a: string)
    requires AllSpace(a)
    ensures Trim(a) == ""
  {
    assert a + "" == a;
    TrimStartSpace(a, "");
  }
}
