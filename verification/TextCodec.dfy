/** Splitting and joining on a separator, and decimal numbers as Python prints and reads them. */
module TextCodec {
  import opened Prelude

  /** `s.split(c)`. */
  function Split(s: string, c: char): (parts: seq<string>)
    ensures parts != []
  {
    if s == [] then [[]]
    else
      var rest := Split(s[1..], c);
      if s[0] == c then [[]] + rest else [[s[0]] + rest[0]] + rest[1..]
  }

  function Join(parts: seq<string>, c: char): string
    requires parts != []
  {
    if |parts| == 1 then parts[0] else parts[0] + [c] + Join(parts[1..], c)
  }

  /** Splitting loses nothing. */
  lemma {:induction false} JoinSplit(s: string, c: char)
    ensures Join(Split(s, c), c) == s
  {
    if s != [] {
      JoinSplit(s[1..], c);
      var rest := Split(s[1..], c);
      if s[0] == c {
        assert ([[]] + rest)[1..] == rest;
        assert Join([[]] + rest, c) == [c] + s[1..];
      } else {
        var parts := [[s[0]] + rest[0]] + rest[1..];
        assert parts[1..] == rest[1..];
        assert Join(parts, c) == [s[0]] + Join(rest, c);
      }
    }
  }

  /** A part without the separator comes out first. */
  lemma {:induction false} SplitFirst(a: string, b: string, c: char)
    requires c !in a
    ensures Split(a + [c] + b, c) == [a] + Split(b, c)
  {
    var s := a + [c] + b;
    if a == [] {
      assert s[1..] == b;
    } else {
      SplitFirst(a[1..], b, c);
      assert s[1..] == a[1..] + [c] + b;
      assert [a[0]] + a[1..] == a;
      assert ([a[1..]] + Split(b, c))[1..] == Split(b, c);
    }
  }

  lemma {:induction false} SplitNone(a: string, c: char)
    requires c !in a
    ensures Split(a, c) == [a]
  {
    if a != [] {
      SplitNone(a[1..], c);
      assert [a[0]] + a[1..] == a;
    }
  }

  // ---- letters

  function LowerChar(c: char): char {
    if 'A' <= c <= 'Z' then (c as int + 32) as char else c
  }

  /** `text.lower()` on ASCII text. */
  function Lower(s: string): string {
    seq(|s|, i requires 0 <= i < |s| => LowerChar(s[i]))
  }

  /** `word in text`. */
  predicate Contains(text: string, word: string) {
    word <= text || (text != [] && Contains(text[1..], word))
  }

  /** A capital becomes the small letter at its place in the alphabet; nothing else changes. */
  lemma LowerExactly(s: string, i: nat)
    requires i < |s|
    ensures |Lower(s)| == |s|
    ensures 'A' <= s[i] <= 'Z' ==> Lower(s)[i] as int - 'a' as int == s[i] as int - 'A' as int
    ensures !('A' <= s[i] <= 'Z') ==> Lower(s)[i] == s[i]
  {
  }

  lemma {:induction false} ContainsExactly(text: string, word: string)
    ensures Contains(text, word) <==> exists a, b :: text == a + word + b
  {
    if Contains(text, word) {
      if word <= text {
        assert text == [] + word + text[|word|..];
      } else {
        ContainsExactly(text[1..], word);
        var a, b :| text[1..] == a + word + b;
        assert text == [text[0]] + a + word + b;
      }
    }
    if a, b :| text == a + word + b {
      if a == [] {
        assert text == word + b;
      } else {
        assert text[1..] == a[1..] + word + b;
        ContainsExactly(text[1..], word);
      }
    }
  }

  // ---- decimal numbers

  function Digit(d: int): char
    requires 0 <= d < 10
  {
    (d + 48) as char
  }

  predicate IsDigit(c: char) {
    '0' <= c <= '9'
  }

  function DecNat(n: nat): string {
    if n < 10 then [Digit(n)] else DecNat(n / 10) + [Digit(n % 10)]
  }

  function Dec(n: int): string {
    if n < 0 then "-" + DecNat(-n) else DecNat(n)
  }

  /** Digits with single underscores between them. */
  function ParseNat(s: string): Option<nat> {
    if s == [] || !IsDigit(s[|s| - 1]) then None
    else
      var d := s[|s| - 1] as int - 48;
      var front := s[..|s| - 1];
      if front == [] then Some(d)
      else
        match ParseNat(if front[|front| - 1] == '_' then front[..|front| - 1] else front)
        case Some(v) => Some(10 * v + d)
        case None => None
  }

  predicate IsSpace(c: char) {
    c == ' ' || '\t' <= c <= '\r' || 28 <= c as int <= 31
  }

  function StripLeft(s: string): string {
    if s != [] && IsSpace(s[0]) then StripLeft(s[1..]) else s
  }

  function StripRight(s: string): string {
    if s != [] && IsSpace(s[|s| - 1]) then StripRight(s[..|s| - 1]) else s
  }

  function Signed(magnitude: Option<nat>, negative: bool): Option<int> {
    match magnitude
    case Some(v) => Some(if negative then -(v as int) else v)
    case None => None
  }

  /** `int(text)` on ASCII text. */
  function ParseInt(text: string): Option<int> {
    var s := StripRight(StripLeft(text));
    if s == [] then None
    else if s[0] == '-' || s[0] == '+' then Signed(ParseNat(s[1..]), s[0] == '-')
    else Signed(ParseNat(s), false)
  }

  lemma {:induction false} DecNatDigits(n: nat)
    ensures DecNat(n) != [] && forall i | 0 <= i < |DecNat(n)| :: IsDigit(DecNat(n)[i])
  {
    if n >= 10 {
      DecNatDigits(n / 10);
    }
  }

  lemma {:induction false} ParseDecNat(n: nat)
    ensures ParseNat(DecNat(n)) == Some(n)
  {
    DecNatDigits(n);
    if n >= 10 {
      ParseDecNat(n / 10);
      DecNatDigits(n / 10);
      var s := DecNat(n);
      assert s[..|s| - 1] == DecNat(n / 10);
    }
  }

  /** Reading a printed number gives it back, negative ones included. */
  lemma ParseDec(n: int)
    ensures ParseInt(Dec(n)) == Some(n)
  {
    DecNatDigits(if n < 0 then -n else n);
    ParseDecNat(if n < 0 then -n else n);
    var s := Dec(n);
    assert StripLeft(s) == s && StripRight(s) == s;
    if n < 0 {
      assert s[1..] == DecNat(-n);
    }
  }

  lemma {:induction false} LeadingZero(n: nat)
    ensures ParseNat("0" + DecNat(n)) == Some(n)
  {
    var s := "0" + DecNat(n);
    DecNatDigits(n);
    if n >= 10 {
      LeadingZero(n / 10);
      DecNatDigits(n / 10);
      assert s[..|s| - 1] == "0" + DecNat(n / 10);
    } else {
      assert s[..|s| - 1] == "0" && "0"[..0] == [];
    }
  }

  /** Spaces around it, a plus sign and leading zeros do not change the number that is read. */
  lemma OtherSpellings(n: nat)
    ensures ParseInt(" " + Dec(n)) == ParseInt(Dec(n) + " ") == ParseInt("+" + Dec(n)) == ParseInt("0" + Dec(n))
            == Some(n)
  {
    DecNatDigits(n);
    ParseDecNat(n);
    LeadingZero(n);
    hide ParseNat, DecNat;
    var s := Dec(n);
    assert StripLeft(s) == s && StripRight(s) == s;
    assert (" " + s)[1..] == s && (s + " ")[..|s|] == s && ("+" + s)[1..] == s;
    assert StripLeft(s + " ") == s + " ";
    assert StripLeft("+" + s) == "+" + s && StripRight("+" + s) == "+" + s;
    assert StripLeft("0" + s) == "0" + s && StripRight("0" + s) == "0" + s;
  }

  lemma DecHasNo(n: int, c: char)
    requires !IsDigit(c) && c != '-'
    ensures c !in Dec(n)
  {
    DecNatDigits(if n < 0 then -n else n);
  }
}
