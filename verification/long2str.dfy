/** long2str: a 32-bit number is printed in a base from 2 to 16, as a signed number if the base is
    given as a positive number, as an unsigned one if it is given as a negative number. */
module Long2Str {
  import opened Arithmetic

  const MAXWIDTH: nat := 32
  const HALF: int := 0x8000_0000
  const VEC := "0123456789ABCDEF"

  predicate IsLong(x: int) {
    -HALF <= x < HALF
  }

  /** What a `long` computation leaves of x. */
  function ToLong(x: int): (r: int)
    ensures IsLong(r)
  {
    (x + HALF) % WORD - HALF
  }

  /** A `long` seen as an unsigned number. */
  function Unsigned(x: int): (u: int)
    requires IsLong(x)
    ensures 0 <= u < WORD
  {
    if x < 0 then x + WORD else x
  }

  predicate BaseOk(base: int) {
    -16 <= base <= -2 || 2 <= base <= 16
  }

  function Abs(x: int): (r: nat)
    ensures r == x || r == -x
  {
    if x < 0 then -x else x
  }

  // What is printed.

  function Digits(u: nat, base: nat): (s: string)
    requires 2 <= base <= 16
    ensures s != ""
    decreases u
  {
    if u < base then [VEC[u]]
    else
      Smaller(u, base);
      Digits(u / base, base) + [VEC[u % base]]
  }

  lemma Smaller(u: nat, b: nat)
    requires 2 <= b <= u
    ensures 0 <= u / b < u
  {
    DivParts(u, b);
    var q := u / b;
    Distribute(b, 2, q);
    NotNegative(b - 2, q);
  }

  function Printed(val: int, base: int): string
    requires IsLong(val) && BaseOk(base)
  {
    if base < 0 then Digits(Unsigned(val), -base)
    else if val < 0 then "-" + Digits(-val, base)
    else Digits(val, base)
  }

  // Reading it back.

  function DigitValue(c: char): int {
    if '0' <= c <= '9' then c as int - '0' as int else c as int - 'A' as int + 10
  }

  function ReadDigits(s: string, base: nat): int {
    if s == "" then 0 else ReadDigits(s[..|s| - 1], base) * base + DigitValue(s[|s| - 1])
  }

  function Read(s: string, base: nat): int {
    if s != "" && s[0] == '-' then -ReadDigits(s[1..], base) else ReadDigits(s, base)
  }

  lemma VecValues(d: nat)
    requires d < 16
    ensures DigitValue(VEC[d]) == d && VEC[d] != '-'
  {
  }

  lemma DivParts(u: nat, b: nat)
    requires b > 0
    ensures u == u / b * b + u % b && u / b >= 0
  {
    var q := u / b;
    assert u == b * q + u % b;
    if q < 0 {
      MulAtLeast(-q, b);
    }
  }

  lemma ReadOneMore(s: string, c: char, base: nat)
    ensures ReadDigits(s + [c], base) == ReadDigits(s, base) * base + DigitValue(c)
  {
    assert (s + [c])[..|s|] == s;
  }

  lemma {:induction false} DigitsRead(u: nat, base: nat)
    requires 2 <= base <= 16
    ensures ReadDigits(Digits(u, base), base) == u && Digits(u, base)[0] != '-'
    decreases u
  {
    hide Digits, ReadDigits;
    var q, d := u / base, u % base;
    DigitsOn(u, base);
    VecValues(d);
    DivParts(u, base);
    ReadOneMore(if q == 0 then "" else Digits(q, base), VEC[d], base);
    if q == 0 {
      ReadNothing(base);
    } else {
      DigitsRead(q, base);
    }
  }

  lemma ReadNothing(base: nat)
    ensures ReadDigits("", base) == 0
  {
  }

  /** The digits say exactly what the number is. */
  lemma ReadBack(val: int, base: int)
    requires IsLong(val) && BaseOk(base)
    ensures Read(Printed(val, base), Abs(base)) == if base > 0 then val else Unsigned(val)
  {
    if base < 0 {
      DigitsRead(Unsigned(val), -base);
    } else if val < 0 {
      DigitsRead(-val, base);
      assert ("-" + Digits(-val, base))[1..] == Digits(-val, base);
    } else {
      DigitsRead(val, base);
    }
  }

  // How long it is.

  function Power(b: nat, k: nat): nat {
    if k == 0 then 1 else Power(b, k - 1) * b
  }

  lemma PowerOn(b: nat, k: nat)
    requires k > 0
    ensures Power(b, k) == Power(b, k - 1) * b && Power(b, 0) == 1
  {
  }

  lemma {:induction false} LengthIs(u: nat, base: nat, k: nat)
    requires 2 <= base <= 16 && k > 0
    ensures |Digits(u, base)| <= k <==> u < Power(base, k)
    decreases k
  {
    hide Power, Digits;
    PowerOn(base, k);
    DigitsOn(u, base);
    if u >= base {
      var q := u / base;
      if k > 1 {
        LengthIs(q, base, k - 1);
      } else {
        assert Digits(q, base) != "";
      }
      Below(u, base, Power(base, k - 1));
    } else {
      AtLeast(base, k);
    }
  }

  lemma Distribute(a: int, b: int, n: int)
    ensures (a - b) * n == a * n - b * n
  {
  }

  lemma NotNegative(a: nat, b: nat)
    ensures a * b >= 0
  {
  }

  lemma Below(u: nat, base: nat, p: nat)
    requires base > 0
    ensures u / base < p <==> u < p * base
  {
    var q := u / base;
    DivParts(u, base);
    if q < p {
      MulAtLeast(p - q, base);
      Distribute(p, q, base);
    } else {
      Distribute(q, p, base);
      NotNegative(q - p, base);
    }
  }

  lemma {:induction false} AtLeast(base: nat, k: nat)
    requires 2 <= base && k > 0
    ensures Power(base, k) >= base
    decreases k
  {
    if k > 1 {
      AtLeast(base, k - 1);
      MulAtLeast(Power(base, k - 1), base);
    }
  }

  lemma {:induction false} PowerGrows(a: nat, b: nat, k: nat)
    requires a <= b
    ensures Power(a, k) <= Power(b, k)
    decreases k
  {
    if k > 0 {
      hide Power;
      PowerGrows(a, b, k - 1);
      PowerOn(a, k);
      PowerOn(b, k);
      Products2(Power(a, k - 1), a, Power(b, k - 1), b);
    }
  }

  lemma Products2(p: nat, a: nat, q: nat, b: nat)
    requires p <= q && a <= b
    ensures p * a <= q * b
  {
    Distribute(q, p, a);
    NotNegative(q - p, a);
    Distribute(b, a, q);
    NotNegative(b - a, q);
  }

  /** The buffer has room for 31 characters and the end of the string.  That is enough for every
      number just in case the base is at least 3; in base 2 it depends on the number. */
  predicate Fits(val: int, base: int) {
    Abs(base) >= 3 || (base == 2 && val > -0x4000_0000) || (base == -2 && val >= 0)
  }

  lemma FitsIff(val: int, base: int)
    requires IsLong(val) && BaseOk(base)
    ensures |Printed(val, base)| < MAXWIDTH <==> Fits(val, base)
  {
    var b := Abs(base);
    var u := if base < 0 then Unsigned(val) else Abs(val);
    if b >= 3 {
      PowerGrows(3, b, 21);
      Powers();
      LengthIs(u, b, 21);
    } else {
      Powers();
      LengthIs(u, 2, 30);
      LengthIs(u, 2, 31);
    }
  }

  lemma Powers()
    ensures Power(3, 21) > WORD
    ensures Power(2, 30) == 0x4000_0000 && Power(2, 31) == 0x8000_0000
  {
    assert Power(3, 7) == 2187;
    assert Power(3, 14) == 4782969;
    assert Power(3, 21) == 10460353203;
    assert Power(2, 10) == 1024;
    assert Power(2, 20) == 1048576;
    assert Power(2, 30) == 1073741824;
  }

  // Division by shifting and subtracting.

  /** After `i` of 32 rounds: the high `i` bits of u have been divided, the quotient is in the low
      bits of val and the rest of u in its high bits. */
  ghost predicate Divided(u: int, base: nat, i: nat, val: int, mod: int, q: int, low: int) {
    && i <= 32 && IsLong(val)
    && 0 <= mod < base && 0 <= q < Pow2(i) && 0 <= low < Pow2(32 - i)
    && u == (q * base + mod) * Pow2(32 - i) + low
    && Unsigned(val) == low * Pow2(i) + q
  }

  lemma Doubled(i: nat)
    ensures Pow2(i + 1) == 2 * Pow2(i)
  {
  }

  lemma Halved(p: int, r: int)
    ensures (2 * p) * r == p * (2 * r) == 2 * (p * r)
  {
  }

  lemma Products(i: nat)
    requires i <= 32
    ensures Pow2(i) * Pow2(32 - i) == WORD
    decreases 32 - i
  {
    if i < 32 {
      hide Pow2;
      Products(i + 1);
      Doubled(i);
      Doubled(31 - i);
      Halved(Pow2(i), Pow2(31 - i));
    } else {
      assert Pow2(8) == 256;
      assert Pow2(16) == 65536;
      assert Pow2(24) == 16777216;
      assert Pow2(32) == WORD;
    }
  }

  /** One round: the top bit of val goes to mod, from which the base is taken if possible. */
  lemma Round(u: int, base: nat, i: nat, val: int, mod: int, q: int, low: int)
    requires Divided(u, base, i, val, mod, q, low) && i < 32
    ensures var t := if val < 0 then 1 else 0;
            var m := 2 * mod + t;
            var take := if m >= base then 1 else 0;
            && IsLong(ToLong(2 * val) + take)
            && Divided(u, base, i + 1, ToLong(2 * val) + take, m - take * base, 2 * q + take, low - t * Pow2(31 - i))
  {
    hide Pow2;
    var t := if val < 0 then 1 else 0;
    var p, r := Pow2(i), Pow2(31 - i);
    Doubled(i);
    Doubled(31 - i);
    Products(i);
    Halved(p, r);
    TopBit(low, p, r, q, val);
    var take := if 2 * mod + t >= base then 1 else 0;
    Expand(q * base + mod, r, t);
    Expand2(q, base, take);
    Expand3(low, t, r, p);
    DoubleWord(val);
  }

  /** The sign of val is the top bit of the part of u that is left. */
  lemma TopBit(low: int, p: int, r: int, q: int, val: int)
    requires IsLong(val) && p > 0 && r > 0 && 2 * (p * r) == WORD && 0 <= q < p && 0 <= low < 2 * r
    requires Unsigned(val) == low * p + q
    ensures val < 0 <==> low >= r
  {
    if low >= r {
      Distribute(low, r, p);
      NotNegative(low - r, p);
    } else {
      MulAtLeast(r - low, p);
      Distribute(r, low, p);
    }
  }

  lemma Expand(a: int, r: int, t: int)
    ensures a * (2 * r) == (2 * a + t) * r - t * r
  {
  }

  lemma Expand2(q: int, base: int, take: int)
    ensures (2 * q + take) * base == 2 * (q * base) + take * base
  {
  }

  lemma Expand3(low: int, t: int, r: int, p: int)
    ensures (low - t * r) * (2 * p) == 2 * (low * p) - t * (2 * (p * r))
  {
    assert (low - t * r) * (2 * p) == low * (2 * p) - t * r * (2 * p);
    assert t * r * (2 * p) == t * (2 * (p * r));
  }

  lemma DoubleWord(val: int)
    requires IsLong(val)
    ensures Unsigned(ToLong(2 * val)) == 2 * Unsigned(val) - (if val < 0 then WORD else 0)
    ensures ToLong(2 * val) % 2 == 0 && IsLong(ToLong(2 * val) + 1)
    ensures Unsigned(ToLong(2 * val) + 1) == Unsigned(ToLong(2 * val)) + 1
  {
  }

  /** The loop at `overflow`, for numbers whose unsigned value is 2^31 or more. */
  method DivideUnsigned(val: int, base: nat) returns (quotient: int, mod: nat)
    requires IsLong(val) && 2 <= base <= 16
    ensures quotient == Unsigned(val) / base && mod == Unsigned(val) % base && 0 <= quotient
  {
    hide Pow2, Divided, ToLong;
    ghost var u := Unsigned(val);
    ghost var q, low := 0, u;
    quotient := val;
    var m := 0;
    var i := 0;
    StartDividing(val, base);
    while i < 32
      invariant i <= 32 && Divided(u, base, i, quotient, m, q, low)
    {
      Round(u, base, i, quotient, m, q, low);
      ghost var t := if quotient < 0 then 1 else 0;
      ghost var take := if 2 * m + t >= base then 1 else 0;
      low := low - t * Pow2(31 - i);
      q := 2 * q + take;
      m := m * 2;
      if quotient < 0 {
        m := m + 1;
      }
      quotient := ToLong(quotient * 2);
      if m >= base {
        m := m - base;
        quotient := quotient + 1;
      }
      i := i + 1;
    }
    EndDividing(u, base, quotient, m, q, low);
    mod := m;
  }

  lemma StartDividing(val: int, base: nat)
    requires IsLong(val) && 2 <= base <= 16
    ensures Divided(Unsigned(val), base, 0, val, 0, 0, Unsigned(val))
  {
    Products(0);
  }

  lemma EndDividing(u: int, base: nat, val: int, mod: int, q: int, low: int)
    requires Divided(u, base, 32, val, mod, q, low) && 2 <= base && 0 <= u < WORD
    ensures val == u / base && mod == u % base && val >= 0
  {
    Products(32);
    DivModUnique(u, base, q, mod);
    if q >= HALF {
      NotNegative(q - HALF, base - 2);
      Distribute(q, HALF, base);
    }
  }

  /** Digits are written from the end of the buffer backwards. */
  method Long2Str(val0: int, base0: int) returns (s: string)
    requires IsLong(val0) && BaseOk(base0) && Fits(val0, base0)
    ensures s == Printed(val0, base0)
  {
    hide Digits, Printed, ToLong;
    FitsIff(val0, base0);
    PrintedIs(val0, base0);
    var numbuf := new char[MAXWIDTH](_ => '\0');
    ghost var all := Printed(val0, base0);
    var val, base := val0, base0;
    var p := MAXWIDTH - 1;
    numbuf[p] := '\0';
    var sign := base > 0;
    if val == 0 {
      p := p - 1;
      numbuf[p] := '0';
      return numbuf[p..MAXWIDTH - 1];
    }
    var overflow := false;
    if base > 0 {
      if val < 0 {
        var v1 := ToLong(-val);
        Negated(val);
        if v1 == val {
          overflow := true;
        } else {
          val := v1;
        }
      } else {
        sign := false;
      }
    } else {
      base := -base;
      overflow := val < 0;
    }
    ghost var prefix := if sign then "-" else "";
    ghost var u := Unsigned(val);
    assert all == prefix + Digits(u, base);
    if overflow {
      DigitsOn(u, base);
      var mod;
      val, mod := DivideUnsigned(val, base);
      p := p - 1;
      numbuf[p] := VEC[mod];
      assert numbuf[p..MAXWIDTH - 1] == [VEC[mod]];
      assert all == prefix + Digits(val, base) + numbuf[p..MAXWIDTH - 1];
    } else {
      assert all == prefix + Digits(val, base) + numbuf[p..MAXWIDTH - 1];
    }
    p := WriteDigits(numbuf, p, val, base, prefix, all);
    if sign {
      p := p - 1;
      numbuf[p] := '-';
      assert numbuf[p..MAXWIDTH - 1] == "-" + numbuf[p + 1..MAXWIDTH - 1];
    }
    s := numbuf[p..MAXWIDTH - 1];
  }

  /** The do-while loop: at least one digit. */
  method WriteDigits(numbuf: array<char>, start: nat, val0: nat, base: nat, ghost prefix: string, ghost all: string)
    returns (p: nat)
    requires numbuf.Length == MAXWIDTH && start < MAXWIDTH && 2 <= base <= 16 && |all| < MAXWIDTH
    requires all == prefix + Digits(val0, base) + numbuf[start..MAXWIDTH - 1]
    modifies numbuf
    ensures |prefix| <= p < MAXWIDTH && all == prefix + numbuf[p..MAXWIDTH - 1]
  {
    hide Digits;
    p := start;
    var val := val0;
    var more := true;
    while more
      invariant p < MAXWIDTH && val >= 0
      invariant more ==> all == prefix + Digits(val, base) + numbuf[p..MAXWIDTH - 1]
      invariant !more ==> val == 0 && all == prefix + numbuf[p..MAXWIDTH - 1]
      decreases if more then val + 1 else 0
    {
      DigitsOn(val, base);
      ghost var after := numbuf[p..MAXWIDTH - 1];
      p := p - 1;
      numbuf[p] := VEC[val % base];
      assert numbuf[p..MAXWIDTH - 1] == [VEC[val % base]] + after;
      val := val / base;
      more := val != 0;
    }
  }

  lemma DigitsOn(u: nat, base: nat)
    requires 2 <= base <= 16
    ensures 0 <= u / base && (u > 0 ==> u / base < u) && (u / base == 0 <==> u < base)
    ensures Digits(u, base) != ""
    ensures Digits(u, base) == (if u / base == 0 then "" else Digits(u / base, base)) + [VEC[u % base]]
  {
    DivParts(u, base);
    if u >= base {
      Smaller(u, base);
    } else {
      DivModUnique(u, base, 0, u);
    }
  }

  lemma PrintedIs(val: int, base: int)
    requires IsLong(val) && BaseOk(base)
    ensures Printed(val, base) ==
            (if base > 0 && val < 0 then "-" else "") + Digits(if base > 0 then Abs(val) else Unsigned(val), Abs(base))
    ensures Printed(0, base) == "0"
  {
    assert forall s: string :: "" + s == s;
  }

  lemma Negated(val: int)
    requires IsLong(val) && val < 0
    ensures ToLong(-val) == if val == -HALF then val else -val
    ensures val == -HALF ==> Unsigned(val) == -val
  {
  }
}
