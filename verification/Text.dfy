/** Decimal numerals and whitespace, as far as keys and queue fields need them. */
module Text {

  predicate Digit(c: char) {
    '0' <= c <= '9'
  }

  predicate Digits(s: string) {
    forall i :: 0 <= i < |s| ==> Digit(s[i])
  }

  function DigitChar(d: nat): char
    requires d < 10
  {
    '0' + d as char
  }

  function DigitValue(c: char): nat
    requires Digit(c)
  {
    (c - '0') as nat
  }

  /** The numeral of n, without leading zeros. */
  function Decimal(n: nat): string {
    if n < 10 then [DigitChar(n)] else Decimal(n / 10) + [DigitChar(n % 10)]
  }

  /** The last w digits of n, with leading zeros. */
  function Padded(n: nat, w: nat): string {
    if w == 0 then "" else Padded(n / 10, w - 1) + [DigitChar(n % 10)]
  }

  function Value(s: string): nat
    requires Digits(s)
  {
    if s == "" then 0 else 10 * Value(s[..|s| - 1]) + DigitValue(s[|s| - 1])
  }

  function Power10(w: nat): (p: nat)
    ensures p >= 1
  {
    if w == 0 then 1 else 10 * Power10(w - 1)
  }

  lemma {:induction false} ValueOfDecimal(n: nat)
    ensures Digits(Decimal(n)) && |Decimal(n)| >= 1
    ensures Value(Decimal(n)) == n
  {
    if n >= 10 {
      ValueOfDecimal(n / 10);
      var s := Decimal(n);
      assert s[..|s| - 1] == Decimal(n / 10);
    } else {
      assert Decimal(n)[..0] == "";
    }
  }

  lemma {:induction false} ValueOfPadded(n: nat, w: nat)
    requires n < Power10(w)
    ensures Digits(Padded(n, w)) && |Padded(n, w)| == w
    ensures Value(Padded(n, w)) == n
  {
    if w > 0 {
      ValueOfPadded(n / 10, w - 1);
      var s := Padded(n, w);
      assert s[..|s| - 1] == Padded(n / 10, w - 1);
    }
  }

  lemma DecimalIsInjective(m: nat, n: nat)
    requires Decimal(m) == Decimal(n)
    ensures m == n
  {
    ValueOfDecimal(m);
    ValueOfDecimal(n);
  }

  /** What Python's str.strip takes off either end. */
  predicate Blank(c: char) {
    var u := c as int;
    || 0x9 <= u <= 0xD || 0x1C <= u <= 0x20 || u == 0x85 || u == 0xA0 || u == 0x1680
    || 0x2000 <= u <= 0x200A || u == 0x2028 || u == 0x2029 || u == 0x202F || u == 0x205F || u == 0x3000
  }

  function StripLeft(s: string): string {
    if s != "" && Blank(s[0]) then StripLeft(s[1..]) else s
  }

  function StripRight(s: string): string {
    if s != "" && Blank(s[|s| - 1]) then StripRight(s[..|s| - 1]) else s
  }

  function Strip(s: string): string {
    StripRight(StripLeft(s))
  }

  predicate Stripped(s: string) {
    s == "" || (!Blank(s[0]) && !Blank(s[|s| - 1]))
  }

  /** Stripping leaves a middle part of the text with no blank at either end, and
      only blanks around it: these three facts determine it unless all is blank. */
  lemma {:induction false} StripLeftCuts(s: string) returns (k: nat)
    ensures k <= |s| && StripLeft(s) == s[k..]
    ensures forall i :: 0 <= i < k ==> Blank(s[i])
    ensures k < |s| ==> !Blank(s[k])
  {
    k := 0;
    if s != "" && Blank(s[0]) {
      var j := StripLeftCuts(s[1..]);
      k := j + 1;
      forall i | 0 <= i < k ensures Blank(s[i]) {
        if i > 0 {
          assert s[i] == s[1..][i - 1];
        }
      }
    }
  }

  lemma {:induction false} StripRightCuts(s: string) returns (k: nat)
    ensures k <= |s| && StripRight(s) == s[..k]
    ensures forall i :: k <= i < |s| ==> Blank(s[i])
    ensures k > 0 ==> !Blank(s[k - 1])
  {
    k := |s|;
    if s != "" && Blank(s[|s| - 1]) {
      k := StripRightCuts(s[..|s| - 1]);
    }
  }

  lemma StripIsStripped(s: string)
    ensures Stripped(Strip(s))
    ensures Strip(s) != "" <==> exists i :: 0 <= i < |s| && !Blank(s[i])
  {
    var a := StripLeftCuts(s);
    var b := StripRightCuts(s[a..]);
    assert Strip(s) == s[a..][..b];
    if a < |s| {
      assert !Blank(s[a..][0]);
      assert b > 0;
      assert s[a..][b - 1] == s[a + b - 1];
    }
  }

  /** Stripping cuts blanks off both ends and nothing else. */
  lemma StripCuts(s: string) returns (front: string, back: string)
    ensures s == front + Strip(s) + back
    ensures forall i :: 0 <= i < |front| ==> Blank(front[i])
    ensures forall i :: 0 <= i < |back| ==> Blank(back[i])
  {
    var a := StripLeftCuts(s);
    var b := StripRightCuts(s[a..]);
    front, back := s[..a], s[a..][b..];
    assert s == s[..a] + (s[a..][..b] + s[a..][b..]);
  }

  lemma StripKeepsStripped(s: string)
    requires Stripped(s)
    ensures Strip(s) == s
  {
  }

  lemma DigitsAreNotBlank(s: string)
    requires Digits(s)
    ensures Stripped(s)
  {
  }
}
