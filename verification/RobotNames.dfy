/** The printed identity of a robot: two overlapping hexadecimal writes. */
module RobotNames {
  import opened Bytes

  const FIELD := 13
  const NUL: char := '\0'

  function Digit(d: nat): (c: char)
    requires d < 16
    ensures c != NUL
  {
    "0123456789abcdef"[d]
  }

  lemma DigitInjective(d: nat, e: nat)
    requires d < 16 && e < 16 && Digit(d) == Digit(e)
    ensures d == e
  {}

  // The digits in order.
  lemma DigitIs(d: nat)
    requires d < 16
    ensures Digit(d) as int == if d < 10 then '0' as int + d else 'a' as int + (d - 10)
  {}

  // printf's "%x": no padding.
  function Hex(n: nat): (s: string)
    ensures |s| > 0 && forall i | 0 <= i < |s| :: s[i] != NUL
  {
    if n < 16 then [Digit(n)] else Hex(n / 16) + [Digit(n % 16)]
  }

  // Exactly k digits, padded with zeros.
  function Padded(n: nat, k: nat): (s: string)
    ensures |s| == k
  {
    if k == 0 then "" else Padded(n / 16, k - 1) + [Digit(n % 16)]
  }

  function Pow16(k: nat): (p: nat)
    ensures p > 0
  {
    if k == 0 then 1 else 16 * Pow16(k - 1)
  }

  // Reading hexadecimal back.
  function ValueOf(s: string): int {
    if s == "" then 0
    else
      var c := s[|s| - 1];
      16 * ValueOf(s[..|s| - 1]) + if c <= '9' then c as int - '0' as int else c as int - 'a' as int + 10
  }

  lemma {:induction false} HexValue(n: nat)
    ensures ValueOf(Hex(n)) == n
  {
    DigitIs(n % 16);
    hide Digit;
    if n >= 16 {
      HexValue(n / 16);
      assert Hex(n)[..|Hex(n)| - 1] == Hex(n / 16);
    } else {
      assert Hex(n)[..0] == "";
    }
  }

  lemma {:induction false} HexInjective(m: nat, n: nat)
    requires Hex(m) == Hex(n)
    ensures m == n
  {
    var s, t := Hex(m), Hex(n);
    if m < 16 || n < 16 {
      assert |s| == 1 && |t| == 1;
      DigitInjective(m, n);
    } else {
      assert s[|s| - 1] == t[|t| - 1];
      DigitInjective(m % 16, n % 16);
      assert s[..|s| - 1] == Hex(m / 16) && t[..|t| - 1] == Hex(n / 16);
      HexInjective(m / 16, n / 16);
    }
  }

  // The length of a number in hexadecimal.
  lemma {:induction false} HexLength(n: nat, k: nat)
    requires k > 0
    ensures |Hex(n)| <= k <==> n < Pow16(k)
  {
    if n >= 16 && k > 1 {
      HexLength(n / 16, k - 1);
    } else if k > 1 {
      assert Pow16(k) == 16 * Pow16(k - 1);
    }
  }

  // Padding is not needed for a number of full length, and then only.
  lemma {:induction false} HexIsPadded(n: nat, k: nat)
    requires k > 0 && n < Pow16(k)
    ensures Hex(n) == Padded(n, k) <==> k == 1 || n >= Pow16(k - 1)
  {
    if k == 1 {
      assert n / 16 == 0;
    } else if n < 16 {
      assert Pow16(k - 1) == 16 * Pow16(k - 2);
    } else {
      var s, t := Hex(n), Padded(n, k);
      assert s[..|s| - 1] == Hex(n / 16) && t[..k - 1] == Padded(n / 16, k - 1);
      HexIsPadded(n / 16, k - 1);
      assert Pow16(k - 1) == 16 * Pow16(k - 2);
    }
  }

  // The leading digits are those of the number shifted down.
  lemma {:induction false} HexPrefix(n: nat, k: nat)
    requires n >= Pow16(k)
    ensures |Hex(n)| > k && Hex(n)[..|Hex(n)| - k] == Hex(n / Pow16(k))
  {
    if k == 0 {
    } else {
      assert n / 16 >= Pow16(k - 1);
      HexPrefix(n / 16, k - 1);
      assert n / 16 / Pow16(k - 1) == n / Pow16(k) by { DivDiv(n, Pow16(k - 1)); }
      var s := Hex(n);
      assert s[..|s| - k] == s[..|s| - 1][..|s| - k];
    }
  }

  lemma DivDiv(n: nat, p: nat)
    requires p > 0
    ensures n / 16 / p == n / (16 * p)
  {
    var q, r := n / 16 / p, n / 16 % p;
    assert n == 16 * (q * p + r) + n % 16;
    assert n == (16 * p) * q + (16 * r + n % 16);
    assert 0 <= 16 * r + n % 16 < 16 * p;
    QuotientUnique(n, 16 * p, q, 16 * r + n % 16);
  }

  lemma QuotientUnique(n: nat, d: nat, q: nat, r: nat)
    requires d > 0 && n == d * q + r && r < d
    ensures n / d == q
  {
    var m, k := n / d, n % d;
    assert n == d * m + k;
    assert d * (m - q) == r - k;
    if m > q {
      AtLeast(d, m - q);
    } else if m < q {
      assert d * (q - m) == k - r;
      AtLeast(d, q - m);
    }
  }

  lemma AtLeast(d: nat, k: nat)
    requires k > 0
    ensures d * k >= d
  {}

  // The two numbers printed: bits 16..47 and bits 0..31.
  function Upper(id: U64): nat { id / 0x1_0000 % 0x1_0000_0000 }

  function Lower(id: U64): nat { id % 0x1_0000_0000 }

  function CString(buf: seq<char>): string {
    if buf == [] || buf[0] == NUL then "" else [buf[0]] + CString(buf[1..])
  }

  // The name the gateway knows a robot by. The second write starts four characters
  // in, so it is lost when the first one ends before that.
  function Name(id: U64): string {
    var first := Hex(Upper(id));
    if |first| < 4 then first else first[..4] + Hex(Lower(id))
  }

  lemma {:induction false} CStringUpTo(s: string, rest: seq<char>)
    requires forall i | 0 <= i < |s| :: s[i] != NUL
    ensures CString(s + [NUL] + rest) == s
  {
    if s != "" {
      assert (s + [NUL] + rest)[1..] == s[1..] + [NUL] + rest;
      CStringUpTo(s[1..], rest);
    }
  }

  // sprintf(&buf[pos], "%x", n).
  method SprintfHex(buf: array<char>, pos: nat, n: nat)
    requires pos + |Hex(n)| + 1 <= buf.Length
    modifies buf
    ensures buf[..] == old(buf[..pos]) + Hex(n) + [NUL] + old(buf[pos + |Hex(n)| + 1..])
  {
    var s := Hex(n) + [NUL];
    for i := 0 to |s|
      invariant forall j | 0 <= j < buf.Length ::
          buf[j] == if pos <= j < pos + i then s[j - pos] else old(buf[j])
    {
      buf[pos + i] := s[i];
    }
  }

  lemma FitsField(id: U64)
    ensures |Hex(Upper(id))| + 1 <= FIELD && 4 + |Hex(Lower(id))| + 1 <= FIELD
  {
    assert Pow16(8) == 0x1_0000_0000;
    HexLength(Upper(id), 8);
    HexLength(Lower(id), 8);
  }

  // The writes of add_robot stay inside the field for every identity, and what they
  // leave there does not depend on what the heap held before.
  method WriteName(buf: array<char>, id: U64)
    requires buf.Length == FIELD
    modifies buf
    ensures CString(buf[..]) == Name(id)
  {
    FitsField(id);
    SprintfHex(buf, 0, Upper(id));
    ghost var mid := buf[..];
    SprintfHex(buf, 4, Lower(id));
    FieldSpells(mid, buf[..], id);
  }

  // The field after the second write, read as a string.
  lemma FieldSpells(mid: seq<char>, field: seq<char>, id: U64)
    requires |mid| == |field| == FIELD
    requires Hex(Upper(id)) + [NUL] <= mid
    requires mid[..4] + Hex(Lower(id)) + [NUL] <= field
    ensures CString(field) == Name(id)
  {
    hide Hex;
    var first := Hex(Upper(id));
    var name := if |first| < 4 then first else first[..4] + Hex(Lower(id));
    assert name + [NUL] <= field;
    CStringUpTo(name, field[|name| + 1..]);
    assert field == name + [NUL] + field[|name| + 1..];
  }

  // The name is the four digits of bits 32..47 followed by the low half, exactly
  // when the top one of those digits is not zero.
  lemma NameShape(id: U64)
    ensures Name(id) == Padded(Top(id), 4) + Hex(Lower(id)) <==> id / 0x1000_0000_0000 % 0x10 != 0
  {
    BitFields(id);
    if Top(id) >= 0x1000 {
      TopDigits(Upper(id));
    } else {
      NoTopDigit(id);
    }
  }

  // Bits 32..47.
  function Top(id: U64): nat { id / 0x1_0000_0000 % 0x1_0000 }

  lemma BitFields(id: U64)
    ensures Top(id) == Upper(id) / 0x1_0000
    ensures id / 0x1000_0000_0000 % 0x10 == Top(id) / 0x1000
    ensures id % 0x1_0000_0000_0000 == Top(id) * 0x1_0000_0000 + Lower(id)
  {
    HighHalf(id / 0x1_0000);
    assert id / 0x1_0000_0000 == id / 0x1_0000 / 0x1_0000;
    TopNibble(id / 0x1_0000_0000);
    assert id / 0x1000_0000_0000 == id / 0x1_0000_0000 / 0x1000;
    Low48(id);
  }

  lemma HighHalf(n: nat)
    ensures n % 0x1_0000_0000 / 0x1_0000 == n / 0x1_0000 % 0x1_0000
  {}

  lemma TopNibble(n: nat)
    ensures n / 0x1000 % 0x10 == n % 0x1_0000 / 0x1000
  {
    var q, r := n / 0x1_0000, n % 0x1_0000;
    assert n / 0x1000 == 0x10 * q + r / 0x1000;
  }

  lemma Low48(n: nat)
    ensures n % 0x1_0000_0000_0000 == n / 0x1_0000_0000 % 0x1_0000 * 0x1_0000_0000 + n % 0x1_0000_0000
  {}

  lemma TopDigits(v: nat)
    requires 0x1000_0000 <= v < 0x1_0000_0000
    ensures |Hex(v)| == 8 && Hex(v)[..4] == Padded(v / 0x1_0000, 4)
  {
    assert Pow16(4) == 0x1_0000 && Pow16(3) == 0x1000;
    assert Pow16(7) == 0x1000_0000 && Pow16(8) == 0x1_0000_0000;
    HexLength(v, 7);
    HexLength(v, 8);
    HexPrefix(v, 4);
    HexIsPadded(v / 0x1_0000, 4);
  }

  lemma NoTopDigit(id: U64)
    requires Top(id) < 0x1000
    ensures Name(id) != Padded(Top(id), 4) + Hex(Lower(id))
  {
    LeadingZero(Top(id));
    var other := Padded(Top(id), 4) + Hex(Lower(id));
    assert other[0] == '0' && |other| > 4;
    if Upper(id) > 0 {
      NoLeadingZero(Upper(id));
      assert Name(id)[0] == Hex(Upper(id))[0];
    }
  }

  lemma LeadingZero(n: nat)
    requires n < 0x1000
    ensures Padded(n, 4)[0] == '0'
  {
    var a := Padded(n / 16 / 16 / 16, 1);
    assert a == "" + [Digit(0)];
    assert Padded(n / 16 / 16, 2) == a + [Digit(n / 16 / 16 % 16)];
    assert Padded(n / 16, 3) == Padded(n / 16 / 16, 2) + [Digit(n / 16 % 16)];
  }

  lemma {:induction false} NoLeadingZero(n: nat)
    requires n > 0
    ensures Hex(n)[0] != '0'
  {
    if n >= 16 {
      NoLeadingZero(n / 16);
    }
  }

  lemma {:induction false} PaddedInjective(m: nat, n: nat, k: nat)
    requires Padded(m, k) == Padded(n, k) && m < Pow16(k) && n < Pow16(k)
    ensures m == n
  {
    if k > 0 {
      var s, t := Padded(m, k), Padded(n, k);
      assert s[k - 1] == t[k - 1];
      assert s[..k - 1] == Padded(m / 16, k - 1) && t[..k - 1] == Padded(n / 16, k - 1);
      DigitInjective(m % 16, n % 16);
      PaddedInjective(m / 16, n / 16, k - 1);
    }
  }

  // Among identities whose top digit is not zero, the name tells any two apart, and
  // says nothing about bits 48..63.
  lemma NameIdentifies(id: U64, other: U64)
    requires id / 0x1000_0000_0000 % 0x10 != 0 && other / 0x1000_0000_0000 % 0x10 != 0
    ensures Name(id) == Name(other) <==> id % 0x1_0000_0000_0000 == other % 0x1_0000_0000_0000
  {
    NameShape(id);
    NameShape(other);
    BitFields(id);
    BitFields(other);
    hide Name, Hex, Padded;
    if Name(id) == Name(other) {
      var p, q := Padded(Top(id), 4), Padded(Top(other), 4);
      assert p == Name(id)[..4] == Name(other)[..4] == q;
      assert Hex(Lower(id)) == Name(id)[4..] == Name(other)[4..] == Hex(Lower(other));
      HexInjective(Lower(id), Lower(other));
      assert Pow16(4) == 0x1_0000;
      PaddedInjective(Top(id), Top(other), 4);
    }
    if id % 0x1_0000_0000_0000 == other % 0x1_0000_0000_0000 {
      assert Top(id) == Top(other) && Lower(id) == Lower(other);
    }
  }

  // The four leading digits of a number, itself when it has no more.
  function Lead(n: nat): (r: nat)
    ensures r < 0x1_0000 && (n >= 0x1000 ==> r >= 0x1000)
  {
    if n < 0x1_0000 then n else Lead(n / 16)
  }

  lemma {:induction false} LeadPrefix(n: nat)
    requires n >= 0x1000
    ensures |Hex(n)| >= 4 && Hex(n)[..4] == Hex(Lead(n))
  {
    assert Pow16(3) == 0x1000 && Pow16(4) == 0x1_0000;
    HexLength(n, 3);
    HexLength(n, 4);
    if n < 0x1_0000 {
      assert Hex(n)[..4] == Hex(n);
    } else {
      LeadPrefix(n / 16);
      assert Hex(n)[..4] == Hex(n / 16)[..4];
    }
  }

  lemma ShortName(id: U64)
    ensures if Upper(id) < 0x1000 then Name(id) == Hex(Upper(id)) && |Name(id)| < 4
            else Name(id) == Hex(Lead(Upper(id))) + Hex(Lower(id)) && |Hex(Lead(Upper(id)))| == 4
  {
    hide Hex;
    assert Pow16(3) == 0x1000;
    HexLength(Upper(id), 3);
    if Upper(id) >= 0x1000 {
      LeadPrefix(Upper(id));
    }
  }

  // When two robots get one name, for every two identities. If bits 28..47 of either
  // are zero, the low half is lost: the names agree when bits 16..47 do. Otherwise
  // they agree when the low halves and the four leading digits of bits 16..47 do.
  lemma NamesCollide(id: U64, other: U64)
    ensures Name(id) == Name(other) <==>
            if Upper(id) < 0x1000 || Upper(other) < 0x1000 then Upper(id) == Upper(other)
            else Lower(id) == Lower(other) && Lead(Upper(id)) == Lead(Upper(other))
  {
    ShortName(id);
    ShortName(other);
    hide Hex, Name;
    if Name(id) == Name(other) {
      if Upper(id) < 0x1000 || Upper(other) < 0x1000 {
        HexInjective(Upper(id), Upper(other));
      } else {
        var p, q := Hex(Lead(Upper(id))), Hex(Lead(Upper(other)));
        assert p == Name(id)[..4] == Name(other)[..4] == q;
        assert Hex(Lower(id)) == Name(id)[4..] == Name(other)[4..] == Hex(Lower(other));
        HexInjective(Lower(id), Lower(other));
        HexInjective(Lead(Upper(id)), Lead(Upper(other)));
      }
    }
  }

  // Both ways of colliding happen. The identities below 2^16 all print as "0", and
  // zero as its top digit lets different upper halves agree in four digits.
  lemma SmallIdentities(id: U64)
    requires id < 0x1_0000
    ensures Name(id) == "0"
  {
    assert Hex(0) == "0";
  }

  lemma LongIdentities()
    ensures Name(0x0001_1111_0000) == Name(0x0011_1111_0000)
  {
    hide Hex, Name;
    NamesCollide(0x0001_1111_0000, 0x0011_1111_0000);
    assert Upper(0x0001_1111_0000) == 0x1_1111 && Upper(0x0011_1111_0000) == 0x11_1111;
    assert Lead(0x1_1111) == 0x1111;
    assert Lead(0x11_1111) == Lead(0x1_1111);
    assert Lower(0x0001_1111_0000) == 0x1111_0000 == Lower(0x0011_1111_0000);
  }
}
