/**
 * Decimal text of integers: Python's `str(int)` and `int(str)` in base 10.
 * Only ASCII digits are recognised.
 */
module Numbers {
  import opened Wrappers

  predicate IsDigit(c: char)
  {
    '0' <= c <= '9'
  }

  function DigitChar(d: nat): char
    requires d < 10
  {
    ('0' as int + d) as char
  }

  function DigitValue(c: char): nat
    requires IsDigit(c)
  {
    c as int - '0' as int
  }

  /** `str(n)` for a non-negative `n`: no sign, no leading zeros. */
  function NatToString(n: nat): (r: string)
    ensures |r| > 0
    ensures forall i :: 0 <= i < |r| ==> IsDigit(r[i])
    ensures |r| > 1 ==> r[0] != '0'
    decreases n
  {
    if n < 10 then [DigitChar(n)] else NatToString(n / 10) + [DigitChar(n % 10)]
  }

  /** `str(i)`: a minus sign exactly for a negative number, then its digits. */
  function IntToString(i: int): (r: string)
    ensures |r| > 0
    ensures r[0] == '-' <==> i < 0
    ensures forall k :: (if i < 0 then 1 else 0) <= k < |r| ==> IsDigit(r[k])
  {
    if i < 0 then "-" + NatToString(-i) else NatToString(i)
  }

  /** The value of a run of digits, reading `_` separators as nothing. */
  function BodyValue(b: string): nat
    requires forall i :: 0 <= i < |b| ==> IsDigit(b[i]) || b[i] == '_'
  {
    if |b| == 0 then 0
    else if b[|b| - 1] == '_' then BodyValue(b[..|b| - 1])
    else BodyValue(b[..|b| - 1]) * 10 + DigitValue(b[|b| - 1])
  }

  /** Python accepts digits with single underscores between them. */
  predicate ValidBody(b: string)
  {
    && |b| > 0
    && IsDigit(b[0])
    && IsDigit(b[|b| - 1])
    && (forall i :: 0 <= i < |b| ==> IsDigit(b[i]) || b[i] == '_')
    && (forall i :: 0 <= i < |b| - 1 ==> !(b[i] == '_' && b[i + 1] == '_'))
  }

  function ParseBody(b: string): Option<nat>
  {
    if ValidBody(b) then Some(BodyValue(b)) else None
  }

  /** The whitespace that `int()` skips around its argument. */
  predicate IsIntSpace(c: char)
  {
    (9 <= c as int <= 13) || c == ' '
  }

  function TrimLeft(s: string): (r: string)
    ensures |r| <= |s|
    ensures |s| > 0 && !IsIntSpace(s[0]) ==> r == s
  {
    if |s| > 0 && IsIntSpace(s[0]) then TrimLeft(s[1..]) else s
  }

  function TrimRight(s: string): (r: string)
    ensures |r| <= |s|
    ensures |s| > 0 && !IsIntSpace(s[|s| - 1]) ==> r == s
  {
    if |s| > 0 && IsIntSpace(s[|s| - 1]) then TrimRight(s[..|s| - 1]) else s
  }

  /** Only whitespace, digits, underscores and signs: the characters `int()` may accept. */
  predicate IntText(s: string)
  {
    forall i :: 0 <= i < |s| ==> IsIntSpace(s[i]) || IsDigit(s[i]) || s[i] == '_' || s[i] == '+' || s[i] == '-'
  }

  /**
   * Python's `int(s)`: surrounding whitespace, an optional sign, then decimal
   * digits; anything else raises, which is `None` here.
   */
  function ParseInt(s: string): (r: Option<int>)
    ensures TrimRight(TrimLeft(s)) == "" ==> r.None?
    ensures r.Some? ==> IntText(s)
  {
    var t := TrimRight(TrimLeft(s));
    if |t| > 0 && (t[0] == '+' || t[0] == '-') then
      match ParseBody(t[1..])
      case None => None
      case Some(v) =>
        SignedIntText(t);
        TrimmedIntText(s);
        var n: int := v;
        Some(if t[0] == '-' then -n else n)
    else
      match ParseBody(t)
      case None => None
      case Some(v) =>
        TrimmedIntText(s);
        Some(v)
  }

  /** A sign followed by a valid body holds only characters `int()` may accept. */
  lemma SignedIntText(t: string)
    requires |t| > 0 && (t[0] == '+' || t[0] == '-') && ValidBody(t[1..])
    ensures IntText(t)
  {
    forall i | 0 < i < |t| ensures IsDigit(t[i]) || t[i] == '_' {
      assert t[i] == t[1..][i - 1];
    }
  }

  /** The whitespace `int()` trims is itself accepted around the number. */
  lemma TrimmedIntText(s: string)
    requires IntText(TrimRight(TrimLeft(s)))
    ensures IntText(s)
  {
    TrimRightIntText(TrimLeft(s));
    TrimLeftIntText(s);
  }

  lemma {:induction false} TrimLeftIntText(s: string)
    requires IntText(TrimLeft(s))
    ensures IntText(s)
    decreases |s|
  {
    if |s| > 0 && IsIntSpace(s[0]) {
      TrimLeftIntText(s[1..]);
      forall i | 0 < i < |s| ensures IsIntSpace(s[i]) || IsDigit(s[i]) || s[i] == '_' || s[i] == '+' || s[i] == '-' {
        assert s[i] == s[1..][i - 1];
      }
    }
  }

  lemma {:induction false} TrimRightIntText(s: string)
    requires IntText(TrimRight(s))
    ensures IntText(s)
    decreases |s|
  {
    if |s| > 0 && IsIntSpace(s[|s| - 1]) {
      TrimRightIntText(s[..|s| - 1]);
      forall i | 0 <= i < |s| - 1 ensures IsIntSpace(s[i]) || IsDigit(s[i]) || s[i] == '_' || s[i] == '+' || s[i] == '-' {
        assert s[i] == s[..|s| - 1][i];
      }
    }
  }

  lemma {:induction false} NatToStringValue(n: nat)
    ensures BodyValue(NatToString(n)) == n
    decreases n
  {
    var s := NatToString(n);
    if n >= 10 {
      NatToStringValue(n / 10);
      assert s[..|s| - 1] == NatToString(n / 10);
    } else {
      assert s[..|s| - 1] == [];
    }
  }

  lemma NatToStringParses(n: nat)
    ensures ParseBody(NatToString(n)) == Some(n)
  {
    NatToStringValue(n);
  }

  /** `int(str(i)) == i`: the decimal text of every integer reads back as that integer. */
  lemma ParseIntToString()
    ensures forall i :: ParseInt(IntToString(i)) == Some(i)
  {
    forall i ensures ParseInt(IntToString(i)) == Some(i) {
      var s := IntToString(i);
      if i < 0 {
        NatToStringParses(-i);
        assert s[1..] == NatToString(-i);
      } else {
        NatToStringParses(i);
      }
      assert TrimRight(TrimLeft(s)) == s;
    }
  }

  /** Leading zeros, a plus sign and surrounding whitespace are accepted. */
  lemma ParseIntLenient()
    ensures ParseInt(" +08080\n") == Some(8080)
  {
    LenientTrim();
    assert "+08080"[1..] == "08080";
    LenientBody();
  }

  lemma LenientTrim()
    ensures TrimRight(TrimLeft(" +08080\n")) == "+08080"
  {
    assert " +08080\n"[1..] == "+08080\n";
    assert TrimLeft("+08080\n") == "+08080\n";
    assert "+08080\n"[..6] == "+08080";
  }

  lemma LenientBody()
    ensures ParseBody("08080") == Some(8080)
  {
    var b := "08080";
    assert ValidBody(b);
    assert "0"[..0] == "" && BodyValue("0") == 0;
    assert "08"[..1] == "0" && BodyValue("08") == 8;
    assert "080"[..2] == "08" && BodyValue("080") == 80;
    assert "0808"[..3] == "080" && BodyValue("0808") == 808;
    assert b[..4] == "0808" && BodyValue(b) == 8080;
  }

  /** Single underscores between digits are accepted and ignored. */
  lemma ParseIntUnderscore()
    ensures ParseInt("1_000") == Some(1000)
  {
    UnderscoreBodyValid();
    UnderscoreBodyValue();
  }

  lemma UnderscoreBodyValid()
    ensures ValidBody("1_000")
  {
  }

  lemma UnderscoreBodyValue()
    ensures BodyValue("1_000") == 1000
  {
    assert "1"[..0] == "" && BodyValue("1") == 1;
    assert "1_"[..1] == "1" && BodyValue("1_") == 1;
    assert "1_0"[..2] == "1_" && BodyValue("1_0") == 10;
    assert "1_00"[..3] == "1_0" && BodyValue("1_00") == 100;
    assert "1_000"[..4] == "1_00";
  }

  /** An empty text, inner whitespace and a doubled underscore make `int()` raise. */
  lemma ParseIntRejects()
    ensures ParseInt("") == None
    ensures ParseInt("80 80") == None
    ensures ParseInt("1__0") == None
  {
    assert "80 80"[2] == ' ';
    assert !ValidBody("80 80");
    assert "1__0"[1] == '_' && "1__0"[2] == '_';
    assert !ValidBody("1__0");
  }
}
