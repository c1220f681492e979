/** The Content-Length test: digits compared as text, never converted before they are
    known to be small, accept exactly the lengths within the limit. */
module ContentLength {
  import ChunkedBody

  const LIMIT_TEXT: string := "4194304"

  datatype Framing = Length(n: nat) | Invalid | TooLarge

  predicate IsDigit(c: char) {
    '0' <= c <= '9'
  }

  predicate Digits(text: string) {
    forall k | 0 <= k < |text| :: IsDigit(text[k])
  }

  // The number a digit string names.
  function Value(text: string): nat
    requires Digits(text)
  {
    if text == "" then 0 else 10 * Value(text[..|text| - 1]) + (text[|text| - 1] as int - '0' as int)
  }

  function LStripZeros(text: string): string {
    if text != "" && text[0] == '0' then LStripZeros(text[1..]) else text
  }

  // Python's order on strings.
  predicate Greater(a: string, b: string) {
    if a == "" then false
    else if b == "" then true
    else a[0] > b[0] || (a[0] == b[0] && Greater(a[1..], b[1..]))
  }

  function StripBlanks(text: string): string {
    if text != "" && (text[0] == ' ' || text[0] == '\t') then StripBlanks(text[1..])
    else if text != "" && (text[|text| - 1] == ' ' || text[|text| - 1] == '\t') then StripBlanks(text[..|text| - 1])
    else text
  }

  function Normalized(text: string): string {
    var stripped := LStripZeros(text);
    if stripped == "" then "0" else stripped
  }

  /** What one Content-Length field means. */
  function Read(field: string): Framing {
    var text := StripBlanks(field);
    if text == "" || !Digits(text) then Invalid else
    var normalized := Normalized(text);
    NormalizedIsDigits(text);
    if |normalized| > |LIMIT_TEXT| || (|normalized| == |LIMIT_TEXT| && Greater(normalized, LIMIT_TEXT)) then TooLarge
    else Length(Value(normalized))
  }

  lemma {:induction false} NormalizedIsDigits(text: string)
    requires Digits(text)
    ensures Digits(Normalized(text)) && Normalized(text) != ""
    ensures Normalized(text) == "0" || Normalized(text)[0] != '0'
  {
    if text != "" && text[0] == '0' { NormalizedIsDigits(text[1..]); }
  }

  lemma {:induction false} LeadingZero(text: string)
    requires Digits(text)
    ensures Digits(['0'] + text) && Value(['0'] + text) == Value(text)
  {
    if text != "" {
      var n := |text| - 1;
      LeadingZero(text[..n]);
      assert (['0'] + text)[..n + 1] == ['0'] + text[..n];
    }
  }

  lemma {:induction false} NormalizedValue(text: string)
    requires Digits(text)
    ensures Digits(Normalized(text)) && Value(Normalized(text)) == Value(text)
  {
    NormalizedIsDigits(text);
    if text != "" && text[0] == '0' {
      NormalizedValue(text[1..]);
      LeadingZero(text[1..]);
      assert text == ['0'] + text[1..];
    }
  }

  lemma {:induction false} PositiveValue(text: string)
    requires Digits(text) && text != "" && text[0] != '0'
    ensures Value(text) >= 1
  {
    if |text| > 1 { PositiveValue(text[..|text| - 1]); }
  }

  // More digits, no leading zero: a larger number.
  lemma {:induction false} LongerIsLarger(a: string, b: string)
    requires Digits(a) && Digits(b) && |a| > |b| && a[0] != '0'
    ensures Value(a) > Value(b)
  {
    if b == "" { PositiveValue(a); } else { LongerIsLarger(a[..|a| - 1], b[..|b| - 1]); }
  }

  // The first difference decides between numbers of the same length.
  lemma {:induction false} FirstDifference(a: string, b: string, k: nat)
    requires Digits(a) && Digits(b) && |a| == |b| && k < |a|
    requires a[..k] == b[..k] && a[k] > b[k]
    ensures Value(a) > Value(b)
  {
    var n := |a| - 1;
    if k < n {
      assert a[..n][..k] == a[..k] && b[..n][..k] == b[..k];
      FirstDifference(a[..n], b[..n], k);
    }
  }

  lemma {:induction false} GreaterDiffers(a: string, b: string) returns (k: nat)
    requires |a| == |b| && Greater(a, b)
    ensures k < |a| && a[..k] == b[..k] && a[k] > b[k]
  {
    if a[0] > b[0] {
      k := 0;
    } else {
      k := GreaterDiffers(a[1..], b[1..]);
      k := k + 1;
      assert a[..k] == [a[0]] + a[1..][..k - 1] && b[..k] == [b[0]] + b[1..][..k - 1];
    }
  }

  lemma {:induction false} GreaterIsTotal(a: string, b: string)
    requires |a| == |b|
    ensures a == b || Greater(a, b) || Greater(b, a)
  {
    if a != "" {
      GreaterIsTotal(a[1..], b[1..]);
      assert a == [a[0]] + a[1..] && b == [b[0]] + b[1..];
    }
  }

  // Python's string order on digit strings of one length is the order of numbers.
  lemma GreaterIsNumeric(a: string, b: string)
    requires Digits(a) && Digits(b) && |a| == |b|
    ensures Greater(a, b) <==> Value(a) > Value(b)
  {
    GreaterIsTotal(a, b);
    if Greater(a, b) {
      var k := GreaterDiffers(a, b);
      FirstDifference(a, b, k);
    } else if Greater(b, a) {
      var k := GreaterDiffers(b, a);
      FirstDifference(b, a, k);
    }
  }

  lemma LimitText()
    ensures Digits(LIMIT_TEXT) && Value(LIMIT_TEXT) == ChunkedBody.POST_BODY_LIMIT
  {
    var t := LIMIT_TEXT;
    assert t[..6] == "419430" && t[..5] == "41943" && t[..4] == "4194" && t[..3] == "419" && t[..2] == "41"
        && t[..1] == "4";
    assert t[..6][..5] == t[..5] && t[..5][..4] == t[..4] && t[..4][..3] == t[..3] && t[..3][..2] == t[..2]
        && t[..2][..1] == t[..1];
    assert Value(t[..1]) == 4;
    assert Value(t[..2]) == 41;
    assert Value(t[..3]) == 419;
    assert Value(t[..4]) == 4194;
    assert Value(t[..5]) == 41943;
    assert Value(t[..6]) == 419430;
  }

  /** A field of digits is accepted exactly when its number is within the limit, and then
      with that number; other fields are invalid. */
  lemma ReadIsNumeric(field: string)
    ensures var text := StripBlanks(field);
            if text == "" || !Digits(text) then Read(field) == Invalid
            else Read(field) == if Value(text) <= ChunkedBody.POST_BODY_LIMIT then Length(Value(text)) else TooLarge
  {
    var text := StripBlanks(field);
    if text != "" && Digits(text) {
      var n := Normalized(text);
      NormalizedIsDigits(text);
      NormalizedValue(text);
      LimitText();
      if |n| > |LIMIT_TEXT| {
        LongerIsLarger(n, LIMIT_TEXT);
      } else if |n| < |LIMIT_TEXT| {
        LongerIsLarger(LIMIT_TEXT, n);
      } else {
        GreaterIsNumeric(n, LIMIT_TEXT);
      }
    }
  }

  const NUMERALS: string := "0123456789"

  function Numeral(d: nat): char
    requires d < 10
  {
    NUMERALS[d]
  }

  // `n` written in base ten.
  function Decimal(n: nat): string {
    (if n < 10 then "" else Decimal(n / 10)) + [Numeral(n % 10)]
  }

  lemma NumeralValue(d: nat)
    requires d < 10
    ensures IsDigit(Numeral(d)) && Numeral(d) as int - '0' as int == d
  {
  }

  lemma ValueGrows(front: string, c: char)
    requires Digits(front) && IsDigit(c)
    ensures Digits(front + [c]) && Value(front + [c]) == 10 * Value(front) + (c as int - '0' as int)
  {
    assert (front + [c])[..|front|] == front;
  }

  lemma {:induction false} DecimalIsItsValue(n: nat)
    ensures Digits(Decimal(n)) && Value(Decimal(n)) == n && Decimal(n) != ""
  {
    var front := if n < 10 then "" else Decimal(n / 10);
    assert Value("") == 0;
    if n >= 10 { DecimalIsItsValue(n / 10); }
    NumeralValue(n % 10);
    hide Numeral, Value;
    ValueGrows(front, Numeral(n % 10));
  }

  predicate Blanks(text: string) {
    forall k | 0 <= k < |text| :: text[k] == ' ' || text[k] == '\t'
  }

  lemma {:induction false} BlanksAreStripped(front: string, text: string, back: string)
    requires Blanks(front) && Blanks(back) && text != "" && Digits(text)
    ensures StripBlanks(front + text + back) == text
    decreases |front| + |back|
  {
    var all := front + text + back;
    if front != "" {
      assert all[0] == front[0] && all[1..] == front[1..] + text + back;
      BlanksAreStripped(front[1..], text, back);
    } else if back != "" {
      assert all == text + back && all[0] == text[0] && IsDigit(text[0]);
      assert all[|all| - 1] == back[|back| - 1] && all[..|all| - 1] == front + text + back[..|back| - 1];
      BlanksAreStripped(front, text, back[..|back| - 1]);
    } else {
      assert all == text && IsDigit(text[0]) && IsDigit(text[|text| - 1]);
    }
  }

  /** A length written in base ten is read as itself if it is within the limit, and refused if
      it is not, whatever blanks stand around it. */
  lemma WrittenLengthIsRead(n: nat, front: string, back: string)
    requires Blanks(front) && Blanks(back)
    ensures Read(front + Decimal(n) + back) == if n <= 4194304 then Length(n) else TooLarge
  {
    DecimalIsItsValue(n);
    BlanksAreStripped(front, Decimal(n), back);
    ReadIsNumeric(front + Decimal(n) + back);
  }
}
