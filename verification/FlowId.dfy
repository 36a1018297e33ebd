/** Flow ids as short base-32 texts. */
module FlowId {
  import opened Glob
  import opened Options
  import opened Seqs
  import opened Text

  const TWO64 := 0x1_0000_0000_0000_0000

  /** Crockford base 32, lower case. */
  const ID_ALPHABET := "0123456789abcdefghjkmnpqrstvwxyz"

  /** An id is an unsigned 64-bit number. */
  predicate ValidId(id: nat) {
    id < TWO64
  }

  // ---- Rendering ---------------------------------------------------------------------

  function Digits(v: nat): string {
    if v == 0 then "" else Digits(v / 32) + [ID_ALPHABET[v % 32]]
  }

  function ShortOf(id: nat): string {
    if id == 0 then "0" else Digits(id)
  }

  function Pow32(k: nat): nat {
    if k == 0 then 1 else 32 * Pow32(k - 1)
  }

  lemma {:induction false} DigitsLength(v: nat, k: nat)
    requires v < Pow32(k)
    ensures |Digits(v)| <= k
  {
    if v > 0 {
      DigitsLength(v / 32, k - 1);
    }
  }

  lemma {:induction false} ThirteenDigits()
    ensures Pow32(13) >= TWO64
  {
    assert Pow32(4) == 0x10_0000;
    assert Pow32(8) == 0x100_0000_0000;
    assert Pow32(12) == 0x1000_0000_0000_0000;
  }

  method Short(id: nat) returns (s: string)
    requires ValidId(id)
    ensures s == ShortOf(id)
  {
    if id == 0 { return "0"; }
    var buf := new char[13](_ => '0');
    var i := 13;
    var v := id;
    ThirteenDigits();
    DigitsLength(id, 13);
    EmptyUnit(Digits(id));
    assert buf[13..] == "";
    while v > 0
      invariant 0 <= i <= 13 && |Digits(v)| <= i
      invariant Digits(id) == Digits(v) + buf[i..]
    {
      Assoc(Digits(v / 32), [ID_ALPHABET[v % 32]], buf[i..]);
      ghost var rest := buf[i..];
      i := i - 1;
      buf[i] := ID_ALPHABET[v % 32];
      assert buf[i..] == [ID_ALPHABET[v % 32]] + rest;
      v := v / 32;
    }
    EmptyUnit(buf[i..]);
    return buf[i..];
  }

  // ---- Parsing -----------------------------------------------------------------------

  /** The confusable letters read as the digits they look like. */
  function Unconfused(c: char): char {
    if c == 'i' || c == 'l' then '1' else if c == 'o' then '0' else c
  }

  /** Where c is in the alphabet. */
  function IndexIn(alphabet: string, c: char): (r: Option<nat>)
    ensures r.Some? ==> r.value < |alphabet| && alphabet[r.value] == c
  {
    if alphabet == "" then None
    else if Last(alphabet) == c then Some(|alphabet| - 1)
    else IndexIn(Front(alphabet), c)
  }

  function Digit(c: char): (r: Option<nat>)
    ensures r.Some? ==> r.value < 32
  {
    IndexIn(ID_ALPHABET, Unconfused(c))
  }

  /** Another digit behind v, in 64-bit arithmetic. */
  function Shifted(v: nat, d: nat): (r: nat)
    ensures ValidId(r)
  {
    (v * 32 + d) % TWO64
  }

  function NextValue(v: nat, c: char): (r: Option<nat>)
    ensures r.Some? ==> ValidId(r.value)
  {
    match Digit(c)
    case None => None
    case Some(d) => Some(Shifted(v, d))
  }

  /** The number a text stands for, in 64-bit arithmetic. */
  function Value(s: string): (r: Option<nat>)
    ensures r.Some? ==> ValidId(r.value)
  {
    if s == "" then Some(0)
    else
      match Value(Front(s))
      case None => None
      case Some(v) => NextValue(v, Last(s))
  }

  function Parsed(text: string): Option<nat> {
    var s := Lower(TrimSpace(text));
    if s == "" || |s| > 13 then None else Value(s)
  }

  method ParseShort(text: string) returns (r: Option<nat>)
    ensures r == Parsed(text)
  {
    var s := Lower(TrimSpace(text));
    if s == "" || |s| > 13 { return None; }
    var v := 0;
    TakeAll(s);
    for k := 0 to |s|
      invariant Value(s[..k]) == Some(v)
    {
      TakeSnoc(s, k);
      FrontLastSnoc(s[..k], s[k]);
      var next := ReadDigit(v, s[k]);
      if next.None? {
        NoValue(s, k + 1);
        return None;
      }
      v := next.value;
    }
    return Some(v);
  }

  method ReadDigit(v: nat, letter: char) returns (r: Option<nat>)
    ensures r == NextValue(v, letter)
  {
    var c := letter;
    if c == 'i' || c == 'l' {
      c := '1';
    } else if c == 'o' {
      c := '0';
    }
    var d := IndexIn(ID_ALPHABET, c);
    if d.None? { return None; }
    return Some(Shifted(v, d.value));
  }

  lemma {:induction false} NoValue(s: string, k: nat)
    requires k <= |s| && Value(s[..k]).None?
    ensures Value(s).None?
  {
    if k == |s| {
      TakeAll(s);
    } else {
      FrontTake(s, k);
      NoValue(Front(s), k);
    }
  }

  // ---- Round trip --------------------------------------------------------------------

  /** The alphabet by ranges of letters; i, l, o and u are missing. */
  function Letter(d: nat): char
    requires d < 32
  {
    if d < 10 then (d + 48) as char
    else if d < 18 then (d - 10 + 97) as char
    else if d < 20 then (d - 18 + 106) as char
    else if d < 22 then (d - 20 + 109) as char
    else if d < 27 then (d - 22 + 112) as char
    else (d - 27 + 118) as char
  }

  lemma {:induction false} AlphabetIsLetters(d: nat)
    requires d < 32
    ensures ID_ALPHABET[d] == Letter(d)
  {
  }

  lemma {:induction false} LettersDiffer(c: nat, d: nat)
    requires c < 32 && d < 32 && Letter(c) == Letter(d)
    ensures c == d
  {
  }

  lemma {:induction false} FindsSome(alphabet: string, d: nat)
    requires d < |alphabet|
    ensures IndexIn(alphabet, alphabet[d]).Some?
  {
    if d < |alphabet| - 1 {
      FindsSome(Front(alphabet), d);
    }
  }

  /** A digit is read back as itself: it is no capital, no blank, and confused with nothing. */
  lemma {:induction false} DigitReadBack(d: nat)
    requires d < 32
    ensures var c := ID_ALPHABET[d];
            Digit(c) == Some(d) && !('A' <= c <= 'Z') && !Blank(c)
  {
    var c := ID_ALPHABET[d];
    AlphabetIsLetters(d);
    assert Unconfused(c) == c;
    FindsSome(ID_ALPHABET, d);
    var e := IndexIn(ID_ALPHABET, c).value;
    AlphabetIsLetters(e);
    LettersDiffer(d, e);
  }

  /** A letter is read as the digit it is, i and l as 1, o as 0, and nothing else as a digit. */
  lemma {:induction false} DigitIs(c: char, d: nat)
    requires d < 32
    ensures Digit(c) == Some(d)
       <==> c == Letter(d) || (d == 1 && (c == 'i' || c == 'l')) || (d == 0 && c == 'o')
  {
    DigitReadBack(d);
    AlphabetIsLetters(d);
    if Digit(c) == Some(d) {
      assert ID_ALPHABET[d] == Unconfused(c);
    }
    DigitReadBack(0);
    DigitReadBack(1);
    AlphabetIsLetters(0);
    AlphabetIsLetters(1);
  }

  lemma {:induction false} ShiftedBack(v: nat)
    requires ValidId(v)
    ensures Shifted(v / 32, v % 32) == v
  {
  }

  lemma {:induction false} DigitsReadBack(v: nat)
    requires ValidId(v)
    ensures Value(Digits(v)) == Some(v)
  {
    if v > 0 {
      DigitsReadBack(v / 32);
      DigitReadBack(v % 32);
      ShiftedBack(v);
      FrontLastSnoc(Digits(v / 32), ID_ALPHABET[v % 32]);
    }
  }

  predicate Plain(s: string) {
    forall i :: 0 <= i < |s| ==> !('A' <= s[i] <= 'Z') && !Blank(s[i])
  }

  lemma {:induction false} DigitsPlain(v: nat)
    ensures Plain(Digits(v))
  {
    if v > 0 {
      DigitsPlain(v / 32);
      DigitReadBack(v % 32);
    }
  }

  lemma {:induction false} PlainStays(s: string)
    requires Plain(s)
    ensures Lower(TrimSpace(s)) == s
  {
    if s != "" {
      LowerStays(s);
    }
  }

  lemma {:induction false} LowerStays(s: string)
    requires Plain(s)
    ensures Lower(s) == s
  {
    if s != "" {
      LowerStays(Front(s));
      FrontLast(s);
    }
  }

  lemma {:induction false} ZeroReadBack()
    ensures Plain("0") && Value("0") == Some(0)
  {
    DigitReadBack(0);
    AlphabetIsLetters(0);
    assert Front("0") == "" && Last("0") == ID_ALPHABET[0];
    assert Shifted(0, 0) == 0;
  }

  lemma {:induction false} DigitsAreSome(v: nat)
    requires v > 0
    ensures Digits(v) != ""
  {
  }

  /** Every 64-bit id is read back from its short text, without overflow. */
  lemma {:induction false} ParseInvertsShort(id: nat)
    requires ValidId(id)
    ensures Parsed(ShortOf(id)) == Some(id)
  {
    if id == 0 {
      ZeroReadBack();
    } else {
      DigitsPlain(id);
      DigitsReadBack(id);
      ThirteenDigits();
      DigitsLength(id, 13);
      DigitsAreSome(id);
    }
    PlainStays(ShortOf(id));
  }

  // ---- Overflow ----------------------------------------------------------------------

  /** The number a text stands for, without a limit. */
  function TrueValue(s: string): Option<nat> {
    if s == "" then Some(0)
    else
      match TrueValue(Front(s))
      case None => None
      case Some(v) =>
        match Digit(Last(s))
        case None => None
        case Some(d) => Some(v * 32 + d)
  }

  lemma {:induction false} WholeTurns(x: nat, q: nat)
    ensures (x + q * TWO64) % TWO64 == x % TWO64
    decreases q
  {
    if q > 0 { WholeTurns(x, q - 1); }
  }

  lemma {:induction false} ModStep(v: nat, d: nat)
    ensures Shifted(v % TWO64, d) == Shifted(v, d)
  {
    WholeTurns(v % TWO64 * 32 + d, v / TWO64 * 32);
  }

  lemma {:induction false} ValueModulo(s: string)
    ensures Value(s).Some? <==> TrueValue(s).Some?
    ensures Value(s).Some? ==> Value(s).value == TrueValue(s).value % TWO64
  {
    if s != "" {
      ValueModulo(Front(s));
      if TrueValue(Front(s)).Some? && Digit(Last(s)).Some? {
        ModStep(TrueValue(Front(s)).value, Digit(Last(s)).value);
      }
    }
  }

  predicate AllDigits(s: string) {
    forall i :: 0 <= i < |s| ==> Digit(s[i]).Some?
  }

  lemma {:induction false} OnlyDigits(s: string)
    ensures TrueValue(s).Some? <==> AllDigits(s)
  {
    if s != "" {
      OnlyDigits(Front(s));
      FrontLast(s);
    }
  }

  /** The first digit says where the number lies. */
  lemma {:induction false} LeadingDigit(s: string, n: nat)
    requires |s| == n + 1 && TrueValue(s).Some?
    ensures Digit(s[0]).Some?
    ensures Digit(s[0]).value * Pow32(n) <= TrueValue(s).value < (Digit(s[0]).value + 1) * Pow32(n)
  {
    if n == 0 {
      assert TrueValue(Front(s)) == Some(0);
    } else {
      LeadingDigit(Front(s), n - 1);
      NextDigit(Digit(s[0]).value, Pow32(n - 1), TrueValue(Front(s)).value, Digit(Last(s)).value);
    }
  }

  lemma {:induction false} NextDigit(lead: nat, p: nat, v: nat, d: nat)
    requires lead * p <= v < (lead + 1) * p && d < 32
    ensures lead * (32 * p) <= v * 32 + d < (lead + 1) * (32 * p)
  {
    assert lead * (32 * p) == 32 * (lead * p) && (lead + 1) * (32 * p) == 32 * ((lead + 1) * p);
  }

  lemma {:induction false} Pow32Grows(j: nat, k: nat)
    requires j <= k
    ensures 0 < Pow32(j) <= Pow32(k)
    decreases k
  {
    if k > 0 {
      if j < k { Pow32Grows(j, k - 1); } else { Pow32Grows(j - 1, k - 1); }
    }
  }

  lemma {:induction false} TwelveDigits()
    ensures 16 * Pow32(12) == TWO64
  {
    assert Pow32(4) == 0x10_0000;
    assert Pow32(8) == 0x100_0000_0000;
    assert Pow32(12) == 0x1000_0000_0000_0000;
  }

  /** Fewer than thirteen digits, or the first is below 16. */
  predicate FitsByLook(s: string) {
    |s| < 13 || (Digit(s[0]).Some? && Digit(s[0]).value < 16)
  }

  /** That is when up to thirteen digits fit 64 bits. */
  lemma {:induction false} FitsIff(s: string)
    requires 0 < |s| <= 13 && TrueValue(s).Some?
    ensures ValidId(TrueValue(s).value) <==> FitsByLook(s)
  {
    var n := |s| - 1;
    LeadingDigit(s, n);
    TwelveDigits();
    if n < 12 { Pow32Grows(n + 1, 12); }
    BelowLimit(TrueValue(s).value, Digit(s[0]).value, Pow32(n), Pow32(12), n < 12);
  }

  lemma {:induction false} BelowLimit(v: nat, d: nat, p: nat, q: nat, short: bool)
    requires d * p <= v < (d + 1) * p && d < 32 && 16 * q == TWO64 && if short then 32 * p <= q else p == q
    ensures v < TWO64 <==> short || d < 16
  {
    if short {
      Times(d + 1, 32, p);
    } else if d < 16 {
      Times(d + 1, 16, p);
    } else {
      Times(16, d, p);
    }
  }

  lemma {:induction false} Times(a: nat, b: nat, p: nat)
    requires a <= b
    ensures a * p <= b * p
  {
  }

  lemma {:induction false} SameModulo(x: nat, y: nat)
    requires y == x % TWO64
    ensures y == x <==> ValidId(x)
  {
  }

  lemma {:induction false} ReadModulo(s: string)
    requires 0 < |s| <= 13 && Value(s).Some?
    ensures TrueValue(s).Some? && Value(s).value == TrueValue(s).value % TWO64
    ensures Value(s) == TrueValue(s) <==> FitsByLook(s)
  {
    ValueModulo(s);
    SameModulo(TrueValue(s).value, Value(s).value);
    FitsIff(s);
  }

  /** What any text is read as: nothing unless it is, trimmed and folded, one to thirteen
      digits; otherwise their number modulo 2^64. That is the number itself if and only if it
      has fewer than thirteen digits or the first is below 16. */
  lemma {:induction false} ParsedModulo(text: string)
    ensures var s := Lower(TrimSpace(text));
            && (Parsed(text).Some? <==> 1 <= |s| <= 13 && AllDigits(s))
            && (Parsed(text).Some? ==>
                  && TrueValue(s).Some? && Parsed(text).value == TrueValue(s).value % TWO64
                  && (Parsed(text) == TrueValue(s) <==> FitsByLook(s)))
  {
    var s := Lower(TrimSpace(text));
    OnlyDigits(s);
    ValueModulo(s);
    if Parsed(text).Some? { ReadModulo(s); }
  }

  /** The first text that overflows, g and twelve zeros, reads as zero. */
  lemma {:induction false} FirstOverflow(s: string)
    requires |s| == 13 && s[0] == 'g' && forall i :: 1 <= i < |s| ==> s[i] == '0'
    ensures TrueValue(s) == Some(TWO64) && Parsed(s) == Some(0)
  {
    DigitReadBack(16);
    DigitReadBack(0);
    AlphabetIsLetters(16);
    AlphabetIsLetters(0);
    TwelveDigits();
    Sixteens(s, 13);
    TakeAll(s);
    ValueModulo(s);
    PlainStays(s);
  }

  lemma {:induction false} Sixteens(s: string, k: nat)
    requires 1 <= k <= |s| && Digit(s[0]) == Some(16) && Digit('0') == Some(0)
    requires forall i :: 1 <= i < |s| ==> s[i] == '0'
    ensures TrueValue(s[..k]) == Some(16 * Pow32(k - 1))
  {
    FrontOfTake(s, k);
    if k == 1 {
      assert s[..0] == "";
    } else {
      Sixteens(s, k - 1);
    }
  }
}
