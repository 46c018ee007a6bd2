/**
 * Posting amounts of the transaction form. An amount is typed as text; the
 * form reads it with `parseFloat`, and its input pattern `^\d+(\.\d{1,10})?$`
 * says which texts are amounts. Numbers are exact reals here, and `NaN` is
 * kept as its own value because the form's sums propagate it.
 */
module Amounts {
  import opened Wrappers

  /** A JavaScript number as the form uses it: an exact value or `NaN`. */
  datatype Number = Finite(value: real) | NaN

  /** `a + b` on numbers: `NaN` absorbs. */
  function Add(a: Number, b: Number): (r: Number)
    ensures r.Finite? <==> a.Finite? && b.Finite?
    ensures r.Finite? ==> r.value == a.value + b.value
  {
    if a.Finite? && b.Finite? then Finite(a.value + b.value) else NaN
  }

  /** The largest number of digits the input pattern allows after the point. */
  const MaxFractionDigits: nat := 10

  predicate IsDigit(c: char)
  {
    '0' <= c <= '9'
  }

  predicate AllDigits(s: string)
  {
    forall k | 0 <= k < |s| :: IsDigit(s[k])
  }

  /** `s` matches `\d+\.\d{1,10}` with the point at index `dot`. */
  predicate DecimalAt(s: string, dot: nat)
    requires dot < |s|
  {
    && 0 < dot && s[dot] == '.' && AllDigits(s[..dot])
    && 1 <= |s| - dot - 1 <= MaxFractionDigits && AllDigits(s[dot + 1..])
  }

  /** The input pattern `^\d+(\.\d{1,10})?$` of the amount field. */
  predicate MatchesAmountPattern(s: string)
    ensures MatchesAmountPattern(s) ==> |s| > 0 && IsDigit(s[0]) && IsDigit(s[|s| - 1])
  {
    (|s| > 0 && AllDigits(s)) || exists dot: nat | dot < |s| :: DecimalAt(s, dot)
  }

  /** The value of a string of decimal digits, most significant first. */
  function DigitsValue(s: string): nat
    requires AllDigits(s)
    decreases |s|
  {
    if s == [] then 0
    else DigitsValue(s[..|s| - 1]) * 10 + ((s[|s| - 1] as int) - ('0' as int))
  }

  function Pow10(k: nat): (r: nat)
    ensures r > 0
  {
    if k == 0 then 1 else 10 * Pow10(k - 1)
  }

  /** The first index of `c` in `s`, if any. */
  function IndexOf(s: string, c: char): (r: Option<nat>)
    ensures r.Some? ==> r.value < |s| && s[r.value] == c
    ensures r.Some? ==> forall k | 0 <= k < r.value :: s[k] != c
    ensures r.None? ==> forall k | 0 <= k < |s| :: s[k] != c
  {
    if s == [] then None
    else if s[0] == c then Some(0)
    else match IndexOf(s[1..], c)
      case None => None
      case Some(i) => Some(i + 1)
  }

  /**
   * `parseFloat` on an amount text. Texts of the input pattern give their
   * exact decimal value; every other text, the empty one included, gives
   * `NaN`.
   */
  function ParseAmount(s: string): (n: Number)
    ensures n.Finite? <==> MatchesAmountPattern(s)
    ensures n.Finite? ==> n.value >= 0.0
  {
    match IndexOf(s, '.')
    case None =>
      if |s| > 0 && AllDigits(s) then Finite(DigitsValue(s) as real)
      else
        assert forall dot: nat | dot < |s| :: !DecimalAt(s, dot);
        NaN
    case Some(dot) =>
      if DecimalAt(s, dot) then
        Finite(DigitsValue(s[..dot]) as real
               + (DigitsValue(s[dot + 1..]) as real) / (Pow10(|s| - dot - 1) as real))
      else
        NoDigitsOnlyWithDot(s, dot);
        NoOtherPoint(s, dot);
        NaN
  }

  /** A text with a point is not all digits. */
  lemma NoDigitsOnlyWithDot(s: string, dot: nat)
    requires dot < |s| && s[dot] == '.'
    ensures !AllDigits(s)
  {
    assert !IsDigit(s[dot]);
  }

  /** The point of a decimal is its first point, so no later one can match either. */
  lemma NoOtherPoint(s: string, first: nat)
    requires first < |s| && s[first] == '.'
    requires forall k | 0 <= k < first :: s[k] != '.'
    requires !DecimalAt(s, first)
    ensures forall dot: nat | dot < |s| :: !DecimalAt(s, dot)
  {
    forall dot: nat | dot < |s| && dot != first ensures !DecimalAt(s, dot) {
      if dot > first {
        assert s[..dot][first] == '.';
      }
    }
  }

  /** `p.amount || "0"`: the empty amount is read as the text `"0"`. */
  function OrZero(amount: string): (t: string)
    ensures amount != "" ==> t == amount
    ensures ParseAmount(t) == if amount == "" then Finite(0.0) else ParseAmount(amount)
  {
    if amount == "" then
      assert DigitsValue("0") == 0;
      "0"
    else amount
  }

  lemma ParseAmountExamples()
    ensures ParseAmount("100.50") == Finite(100.5)
    ensures ParseAmount("7") == Finite(7.0)
  {
    assert IndexOf("100.50", '.') == Some(3);
    assert DigitsValue("100") == 100 by {
      assert "100"[..2] == "10" && "10"[..1] == "1" && "1"[..0] == "";
    }
    assert DigitsValue("50") == 50 by {
      assert "50"[..1] == "5" && "5"[..0] == "";
    }
    assert "100.50"[..3] == "100" && "100.50"[4..] == "50";
    assert DecimalAt("100.50", 3);
    assert DigitsValue("7") == 7 by {
      assert "7"[..0] == "";
    }
  }

  /** A text of digits alone reads as the integer those digits spell. */
  lemma ParseAmountDigits(s: string)
    requires |s| > 0 && AllDigits(s)
    ensures ParseAmount(s) == Finite(DigitsValue(s) as real)
  {
  }

  /**
   * A decimal text reads as the integer its digits spell once the point is
   * dropped, scaled down by ten to the number of fraction digits.
   */
  lemma ParseAmountScaled(s: string, dot: nat)
    requires dot < |s| && DecimalAt(s, dot)
    ensures ParseAmount(s)
         == Finite((DigitsValue(s[..dot] + s[dot + 1..]) as real) / (Pow10(|s| - dot - 1) as real))
  {
    FirstPoint(s, dot);
    var whole, fraction := s[..dot], s[dot + 1..];
    DigitsValueAppend(whole, fraction);
    ScaleDown(DigitsValue(whole + fraction), DigitsValue(whole), Pow10(|fraction|), DigitsValue(fraction));
  }

  /** Appending digits shifts the value of the digits before them. */
  lemma {:induction false} DigitsValueAppend(a: string, b: string)
    requires AllDigits(a) && AllDigits(b)
    ensures AllDigits(a + b)
    ensures DigitsValue(a + b) == DigitsValue(a) * Pow10(|b|) + DigitsValue(b)
  {
    assert forall k | 0 <= k < |a + b| :: (a + b)[k] == if k < |a| then a[k] else b[k - |a|];
    if b == [] {
      assert a + b == a;
    } else {
      var init := b[..|b| - 1];
      assert AllDigits(init) by {
        forall k | 0 <= k < |init| ensures IsDigit(init[k]) {
          assert init[k] == b[k];
        }
      }
      assert (a + b)[..|a + b| - 1] == a + init;
      DigitsValueAppend(a, init);
      ShiftStep(DigitsValue(a), Pow10(|init|), DigitsValue(init), (b[|b| - 1] as int) - ('0' as int));
    }
  }

  lemma ShiftStep(x: nat, p: nat, y: nat, d: int)
    ensures (x * p + y) * 10 + d == x * (10 * p) + (y * 10 + d)
  {
  }

  /** The point of a decimal text is its first point. */
  lemma FirstPoint(s: string, dot: nat)
    requires dot < |s| && DecimalAt(s, dot)
    ensures IndexOf(s, '.') == Some(dot)
  {
    forall k | 0 <= k < dot ensures s[k] != '.' {
      assert s[k] == s[..dot][k];
    }
  }

  lemma ScaleDown(n: nat, i: nat, k: nat, f: nat)
    requires k > 0 && n == i * k + f
    ensures (n as real) / (k as real) == i as real + (f as real) / (k as real)
  {
    assert (n as real) == (i as real) * (k as real) + (f as real);
  }

  /** Texts outside the input pattern read as `NaN` in this model. */
  lemma ParseAmountNaNExamples()
    ensures ParseAmount("") == NaN
    ensures ParseAmount("1.") == NaN
    ensures ParseAmount("1.5.0") == NaN
  {
    assert IndexOf("1.", '.') == Some(1);
    assert IndexOf("1.5.0", '.') == Some(1);
  }

  lemma ParseAmountFractionExample()
    ensures ParseAmount("1.005") == Finite(1.005)
    ensures ParseAmount("1") == Finite(1.0)
  {
    assert IndexOf("1.005", '.') == Some(1);
    assert "1.005"[..1] == "1" && "1.005"[2..] == "005";
    assert DigitsValue("1") == 1 by { assert "1"[..0] == ""; }
    assert DigitsValue("005") == 5 by {
      assert "005"[..2] == "00" && "00"[..1] == "0" && "0"[..0] == "";
    }
    assert Pow10(3) == 1000;
  }
}
