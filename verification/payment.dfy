/** The payment form's input normalisers for the card number and the expiry
    date. */
module Payment {
  import opened Text

  /** `value.replace(/\s+/g, '').replace(/[^0-9]/gi, '')`: the ASCII digits of
      the input, in order. */
  function DigitsOf(value: string): (v: string)
    ensures AllDigits(v)
    ensures |v| <= |value|
    decreases |value|
  {
    if |value| == 0 then ""
    else
      var last := value[|value| - 1];
      DigitsOf(value[..|value| - 1]) + (if IsDigit(last) then [last] else "")
  }

  /** A string of digits keeps all of its characters. */
  lemma {:induction false} DigitsOfDigits(v: string)
    requires AllDigits(v)
    ensures DigitsOf(v) == v
    decreases |v|
  {
    if |v| > 0 {
      DigitsOfDigits(v[..|v| - 1]);
    }
  }

  /** The digits of a concatenation. */
  lemma {:induction false} DigitsOfAppend(a: string, b: string)
    ensures DigitsOf(a + b) == DigitsOf(a) + DigitsOf(b)
    decreases |b|
  {
    if |b| == 0 {
      assert a + b == a;
    } else {
      DigitsOfAppend(a, b[..|b| - 1]);
      assert (a + b)[..|a + b| - 1] == a + b[..|b| - 1];
    }
  }

  /** Digits before a separator are kept and the separator is dropped. */
  lemma DigitsAroundSeparator(a: string, c: char, b: string)
    requires AllDigits(a) && !IsDigit(c)
    ensures DigitsOf(a + [c] + b) == a + DigitsOf(b)
  {
    DigitsOfAppend(a + [c], b);
    assert (a + [c])[..|a|] == a;
    assert DigitsOf(a + [c]) == DigitsOf(a);
    DigitsOfDigits(a);
  }

  function Min(a: int, b: int): int {
    if a <= b then a else b
  }

  // ----- formatCardNumber -----

  /** `parts.join(' ')` for the four-character parts of a non-empty match:
      spaces exactly at every fifth position. */
  function Group(m: string): (r: string)
    requires |m| > 0 && AllDigits(m)
    ensures |r| == |m| + (|m| - 1) / 4
    ensures forall i :: 0 <= i < |r| ==> (r[i] == ' ' <==> i % 5 == 4)
    ensures forall i :: 0 <= i < |r| ==> r[i] == ' ' || IsDigit(r[i])
    decreases |m|
  {
    if |m| <= 4 then m
    else
      var rest := Group(m[4..]);
      var r := m[..4] + " " + rest;
      forall i | 0 <= i < |r|
        ensures (r[i] == ' ' <==> i % 5 == 4) && (r[i] == ' ' || IsDigit(r[i]))
      {
        if i < 4 {
          assert r[i] == m[i];
        } else if i > 4 {
          assert r[i] == rest[i - 5];
          assert (i - 5) % 5 == i % 5;
        }
      }
      r
  }

  /** Removing the spaces gives the match back. */
  lemma {:induction false} GroupDigits(m: string)
    requires |m| > 0 && AllDigits(m)
    ensures DigitsOf(Group(m)) == m
    decreases |m|
  {
    if |m| <= 4 {
      DigitsOfDigits(m);
    } else {
      GroupDigits(m[4..]);
      DigitsAroundSeparator(m[..4], ' ', Group(m[4..]));
      assert m == m[..4] + m[4..];
    }
  }

  /** `formatCardNumber`: the first sixteen digits in groups of four when
      there are at least four digits, else the digits alone. */
  function FormatCardNumber(value: string): (r: string)
    ensures forall i :: 0 <= i < |r| ==> r[i] == ' ' || IsDigit(r[i])
    ensures |DigitsOf(value)| < 4 ==> r == DigitsOf(value)
    ensures |DigitsOf(value)| >= 4 ==>
      && |r| <= 19
      && (forall i :: 0 <= i < |r| ==> (r[i] == ' ' <==> i % 5 == 4))
  {
    var v := DigitsOf(value);
    if |v| < 4 then v else Group(v[..Min(16, |v|)])
  }

  /** The digits kept are a prefix of the input's digits: all of them, up to
      sixteen. */
  lemma CardNumberDigits(value: string)
    ensures var v := DigitsOf(value);
      DigitsOf(FormatCardNumber(value)) == if |v| < 4 then v else v[..Min(16, |v|)]
  {
    var v := DigitsOf(value);
    if |v| < 4 {
      DigitsOfDigits(v);
    } else {
      GroupDigits(v[..Min(16, |v|)]);
    }
  }

  /** Formatting a formatted card number changes nothing. */
  lemma CardNumberIdempotent(value: string)
    ensures FormatCardNumber(FormatCardNumber(value)) == FormatCardNumber(value)
  {
    var v := DigitsOf(value);
    CardNumberDigits(value);
    if |v| >= 4 {
      var m := v[..Min(16, |v|)];
      assert DigitsOf(FormatCardNumber(value)) == m;
      assert m[..Min(16, |m|)] == m;
    }
  }

  // ----- formatExpiryDate -----

  /** The expiry layout of a string of digits: with two or more, the first
      two, a slash and up to two more; otherwise the digits alone. */
  function ExpiryLayout(v: string): (r: string)
    requires AllDigits(v)
    ensures |r| <= 5
    ensures |v| < 2 ==> r == v
    ensures |v| >= 2 ==> |r| >= 3 && r[2] == '/'
    ensures forall i :: 0 <= i < |r| && i != 2 ==> IsDigit(r[i])
  {
    if |v| >= 2 then v[..2] + "/" + v[2..Min(4, |v|)] else v
  }

  /** The layout keeps the first four digits. */
  lemma ExpiryLayoutDigits(v: string)
    requires AllDigits(v)
    ensures DigitsOf(ExpiryLayout(v)) == v[..Min(4, |v|)]
  {
    if |v| >= 2 {
      var a, b := v[..2], v[2..Min(4, |v|)];
      DigitsAroundSeparator(a, '/', b);
      DigitsOfDigits(b);
      assert v[..Min(4, |v|)] == a + b;
    } else {
      DigitsOfDigits(v);
    }
  }

  /** `formatExpiryDate` */
  function FormatExpiryDate(value: string): (r: string)
    ensures |r| <= 5
    ensures |DigitsOf(value)| < 2 ==> r == DigitsOf(value)
    ensures |DigitsOf(value)| >= 2 ==> |r| >= 3 && r[2] == '/'
    ensures forall i :: 0 <= i < |r| && i != 2 ==> IsDigit(r[i])
  {
    ExpiryLayout(DigitsOf(value))
  }

  /** Formatting a formatted expiry date changes nothing. */
  lemma ExpiryIdempotent(value: string)
    ensures FormatExpiryDate(FormatExpiryDate(value)) == FormatExpiryDate(value)
  {
    var v := DigitsOf(value);
    var r := ExpiryLayout(v);
    ExpiryLayoutDigits(v);
    var m := v[..Min(4, |v|)];
    assert DigitsOf(r) == m;
    if |v| >= 2 {
      assert m[..2] == v[..2];
      assert m[2..Min(4, |m|)] == v[2..Min(4, |v|)];
    }
  }
}
