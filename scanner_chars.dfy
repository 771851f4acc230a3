/** The pure string functions of the scanner: character classes, escape
    sequences and the radix numeral parser (`isize::from_str_radix`). */
module ScannerChars {
  import opened Objects
  import opened Errors

  // ---------------------------------------------------------------------
  // Character classes

  predicate IsAlpha(c: char)
  {
    ('a' <= c <= 'z') || ('A' <= c <= 'Z')
    || c == '_' || c == '-' || c == '+' || c == '*' || c == '/'
    || c == '%' || c == '>' || c == '<' || c == '='
  }

  predicate IsDigit(c: char)
  {
    '0' <= c <= '9'
  }

  predicate IsHex(c: char)
  {
    ('a' <= c <= 'f') || ('A' <= c <= 'F') || IsDigit(c)
  }

  predicate IsBinary(c: char)
  {
    c == '0' || c == '1'
  }

  predicate IsAlphaNumeric(c: char)
  {
    IsAlpha(c) || IsDigit(c)
  }

  /** How the classes relate: digits and alpha characters are disjoint,
      alphanumeric is their union, hex digits are the decimal digits plus
      `a-f` and `A-F`, binary digits are exactly `0` and `1`. */
  lemma CharClassRelations(c: char)
    ensures !(IsDigit(c) && IsAlpha(c))
    ensures IsAlphaNumeric(c) <==> IsAlpha(c) || IsDigit(c)
    ensures IsHex(c) <==> IsDigit(c) || ('a' <= c <= 'f') || ('A' <= c <= 'F')
    ensures IsBinary(c) <==> c in {'0', '1'}
    ensures IsBinary(c) ==> IsDigit(c) && IsHex(c)
    ensures IsDigit(c) ==> IsHex(c)
    ensures !IsAlphaNumeric('\0') && !IsHex('\0') && !IsBinary('\0') && !IsDigit('\0')
  {
  }

  /** The unit test on the classes, stated for every character it loops over. */
  lemma CharClassTable(c: char)
    ensures 'a' <= c <= 'z' || 'A' <= c <= 'Z' ==> IsAlpha(c) && !IsDigit(c) && IsAlphaNumeric(c)
    ensures '0' <= c <= '9' ==> !IsAlpha(c) && IsDigit(c) && IsAlphaNumeric(c) && IsHex(c)
    ensures 'a' <= c <= 'f' || 'A' <= c <= 'F' ==> IsHex(c)
    ensures 'g' <= c <= 'z' || 'G' <= c <= 'Z' ==> !IsHex(c)
    ensures IsBinary('0') && IsBinary('1') && !IsBinary('2')
  {
  }

  // ---------------------------------------------------------------------
  // Escapes

  /** The characters that may follow a backslash in an escape. */
  const EscapeLetters: seq<char> := ['r', 't', 'n', '\\', '"', '\'', '0']

  /** Decodes the pair `c0 c1`: `(true, e)` when `c0 c1` is an escape for `e`,
      otherwise `(false, c0)`. */
  function UnescapeChar(c0: char, c1: char): (r: (bool, char))
    ensures r.0 <==> c0 == '\\' && c1 in EscapeLetters
    ensures !r.0 ==> r.1 == c0
    ensures r.0 ==> r.1 != c1 || c1 in {'\\', '"', '\''}
  {
    if c0 == '\\' then
      match c1
      case 'r' => (true, '\r')
      case 't' => (true, '\t')
      case 'n' => (true, '\n')
      case '\\' => (true, '\\')
      case '"' => (true, '"')
      case '\'' => (true, '\'')
      case '0' => (true, '\0')
      case _ => (false, c0)
    else
      (false, c0)
  }

  /** The character after position `i`, or NUL past the end (`nth(..).unwrap_or('\0')`). */
  function CharAt(s: string, i: nat): char
  {
    if i < |s| then s[i] else '\0'
  }

  /** What `unescape` computes: left to right, an escape pair becomes one
      character, every other character is kept. */
  function Unescaped(s: string): string
  {
    if |s| == 0 then []
    else
      var u := UnescapeChar(s[0], CharAt(s, 1));
      [u.1] + Unescaped(s[if u.0 then 2 else 1..])
  }

  /** `unescape`: the loop with a `skip` flag over the characters of `input`. */
  method Unescape(input: string) returns (result: string)
    ensures result == Unescaped(input)
  {
    result := "";
    var skip := false;
    for i := 0 to |input|
      invariant skip ==> i < |input|
      invariant result + Unescaped(input[if skip then i + 1 else i..]) == Unescaped(input)
    {
      if skip {
        skip := false;
        continue;
      }
      var u := UnescapeChar(CharAt(input, i), CharAt(input, i + 1));
      assert input[i..][0] == input[i] && CharAt(input[i..], 1) == CharAt(input, i + 1);
      assert input[i..][1..] == input[i + 1..];
      if u.0 {
        assert input[i..][2..] == input[i + 2..];
      }
      skip := u.0;
      result := result + [u.1];
    }
  }

  /** A string with no backslash is its own unescaping. */
  lemma {:induction false} UnescapedPlain(s: string, t: string)
    requires '\\' !in s
    ensures Unescaped(s + t) == s + Unescaped(t)
  {
    if |s| > 0 {
      assert s[0] in s;
      assert (s + t)[0] == s[0];
      assert (s + t)[1..] == s[1..] + t;
      assert !UnescapeChar(s[0], CharAt(s + t, 1)).0;
      assert Unescaped(s + t) == [s[0]] + Unescaped(s[1..] + t);
      UnescapedPlain(s[1..], t);
      calc {
        Unescaped(s + t);
        [s[0]] + Unescaped(s[1..] + t);
        [s[0]] + (s[1..] + Unescaped(t));
        ([s[0]] + s[1..]) + Unescaped(t);
        { assert [s[0]] + s[1..] == s; }
        s + Unescaped(t);
      }
    } else {
      assert s + t == t;
    }
  }

  lemma UnescapedNoBackslash(s: string)
    requires '\\' !in s
    ensures Unescaped(s) == s
  {
    UnescapedPlain(s, []);
    assert s + [] == s;
  }

  /** Each escape pair decodes to its character and decoding goes on after it. */
  lemma UnescapedEscape(e: char, t: string)
    requires e in EscapeLetters
    ensures Unescaped(['\\', e] + t) == [UnescapeChar('\\', e).1] + Unescaped(t)
  {
    assert (['\\', e] + t)[2..] == t;
  }

  /** A backslash before any other character (or at the end) is kept, and
      the character after it is decoded on its own. */
  lemma UnescapedKeepsBackslash(t: string)
    requires |t| == 0 || t[0] !in EscapeLetters
    ensures Unescaped(['\\'] + t) == ['\\'] + Unescaped(t)
  {
    var u := ['\\'] + t;
    assert u[0] == '\\' && u[1..] == t;
    assert CharAt(u, 1) == CharAt(t, 0);
    assert !UnescapeChar('\\', CharAt(t, 0)).0;
  }

  /** Unescaping never lengthens a string. */
  lemma {:induction false} UnescapedShorter(s: string)
    ensures |Unescaped(s)| <= |s|
    decreases |s|
  {
    if |s| > 0 {
      UnescapedShorter(s[1..]);
      if |s| >= 2 { UnescapedShorter(s[2..]); }
    }
  }

  /** A piece of escaped text: a run without backslashes, or one escape pair. */
  datatype Piece = Plain(text: string) | Escape(letter: char)

  /** The source text of a list of pieces. */
  function Escaped(ps: seq<Piece>): string
  {
    if |ps| == 0 then []
    else (match ps[0] case Plain(t) => t case Escape(e) => ['\\', e]) + Escaped(ps[1..])
  }

  /** The text a list of pieces stands for. */
  function Meaning(ps: seq<Piece>): string
  {
    if |ps| == 0 then []
    else (match ps[0] case Plain(t) => t case Escape(e) => [UnescapeChar('\\', e).1]) + Meaning(ps[1..])
  }

  predicate WellFormedPieces(ps: seq<Piece>)
  {
    forall i | 0 <= i < |ps| ::
      match ps[i] case Plain(t) => '\\' !in t case Escape(e) => e in EscapeLetters
  }

  /** Unescaping the source text of well-formed pieces gives their meaning. */
  lemma {:induction false} UnescapedPieces(ps: seq<Piece>)
    requires WellFormedPieces(ps)
    ensures Unescaped(Escaped(ps)) == Meaning(ps)
  {
    if |ps| > 0 {
      assert WellFormedPieces(ps[1..]) by {
        forall i | 0 <= i < |ps| - 1 ensures ps[1..][i] == ps[i + 1] { }
      }
      UnescapedPieces(ps[1..]);
      match ps[0]
      case Plain(t) =>
        assert '\\' !in t by { assert WellFormedPieces(ps) && ps[0] == Plain(t); }
        UnescapedPlain(t, Escaped(ps[1..]));
      case Escape(e) =>
        assert e in EscapeLetters by { assert WellFormedPieces(ps) && ps[0] == Escape(e); }
        UnescapedEscape(e, Escaped(ps[1..]));
    }
  }

  /** Instances of the doc test of `unescape`: escaped quotes decode to quotes. */
  lemma UnescapeQuotesExample()
    ensures Unescaped("\\\"W\\\"") == "\"W\""
  {
    UnescapedEscape('"', "");
    assert ['\\', '"'] + "" == "\\\"";
    UnescapedPlain("W", "\\\"");
    assert "W" + "\\\"" == "W\\\"";
    UnescapedEscape('"', "W\\\"");
    assert ['\\', '"'] + "W\\\"" == "\\\"W\\\"";
  }

  /** A tab and a newline escape between plain characters. */
  lemma UnescapeTabNewlineExample()
    ensures Unescaped("a\\tb\\n") == "a\tb\n"
  {
    UnescapedEscape('n', "");
    assert ['\\', 'n'] + "" == "\\n";
    UnescapedPlain("b", "\\n");
    assert "b" + "\\n" == "b\\n";
    UnescapedEscape('t', "b\\n");
    assert ['\\', 't'] + "b\\n" == "\\tb\\n";
    UnescapedPlain("a", "\\tb\\n");
    assert "a" + "\\tb\\n" == "a\\tb\\n";
  }

  /** A carriage return and a trailing escaped backslash. */
  lemma UnescapeReturnBackslashExample()
    ensures Unescaped("\\r!\\\\") == "\r!\\"
  {
    UnescapedEscape('\\', "");
    assert ['\\', '\\'] + "" == "\\\\";
    UnescapedPlain("!", "\\\\");
    assert "!" + "\\\\" == "!\\\\";
    UnescapedEscape('r', "!\\\\");
    assert ['\\', 'r'] + "!\\\\" == "\\r!\\\\";
  }

  /** A backslash before a character that is not an escape letter is kept. */
  lemma UnescapeUnknownExample()
    ensures Unescaped("\\x") == "\\x"
  {
  }

  // ---------------------------------------------------------------------
  // Numerals

  /** `char::to_digit(radix)`. */
  function DigitValue(c: char, radix: nat): Option<nat>
  {
    var v: int :=
      if '0' <= c <= '9' then c as int - '0' as int
      else if 'a' <= c <= 'z' then c as int - 'a' as int + 10
      else if 'A' <= c <= 'Z' then c as int - 'A' as int + 10
      else 36;
    if v < radix then Some(v) else None
  }

  /** The value of a run of digits, most significant first; `None` if one
      of them is not a digit in `radix`. */
  function DigitsValue(s: string, radix: nat): Option<nat>
  {
    if |s| == 0 then Some(0)
    else
      match (DigitsValue(s[..|s| - 1], radix), DigitValue(s[|s| - 1], radix))
      case (Some(v), Some(d)) => Some(v * radix + d)
      case _ => None
  }

  lemma {:induction false} DigitsValueSome(s: string, radix: nat)
    ensures DigitsValue(s, radix).Some? <==> forall i | 0 <= i < |s| :: DigitValue(s[i], radix).Some?
  {
    if |s| > 0 {
      DigitsValueSome(s[..|s| - 1], radix);
    }
  }

  /** `isize::from_str_radix` on 64 bits, then the cast to the object
      number: an optional sign, at least one digit of `radix`, and a value
      in the `i64` range. */
  function StrToNum(s: string, radix: nat): Option<I64>
  {
    if |s| == 0 then None
    else if (s[0] == '+' || s[0] == '-') && |s| == 1 then None
    else
      var negative := s[0] == '-';
      var digits := if s[0] == '+' || s[0] == '-' then s[1..] else s;
      match DigitsValue(digits, radix)
      case None => None
      case Some(v) =>
        var w: int := 0 - (v as int);
        if negative then (if w < MinI64 then None else Some(w))
        else (if v > MaxI64 then None else Some(v))
  }

  /** A parsed value is the value of the digits, negated after a `-`. */
  lemma StrToNumDigits(s: string, radix: nat)
    ensures var r := StrToNum(s, radix);
      && (r.Some? ==> |s| > 0)
      && (r.Some? && s[0] != '-' && s[0] != '+' ==> DigitsValue(s, radix) == Some(r.value as int))
      && (r.Some? && s[0] == '+' ==> DigitsValue(s[1..], radix) == Some(r.value as int))
      && (r.Some? && s[0] == '-' ==> DigitsValue(s[1..], radix).Some? && DigitsValue(s[1..], radix).value == 0 - (r.value as int))
  {
  }

  /** An unsigned run parses iff it is non-empty, every character is a digit
      of the radix and the value fits. */
  lemma StrToNumUnsigned(s: string, radix: nat)
    requires |s| > 0 && s[0] != '-' && s[0] != '+'
    ensures StrToNum(s, radix).Some? <==>
      (forall i | 0 <= i < |s| :: DigitValue(s[i], radix).Some?) && DigitsValue(s, radix).Some? && DigitsValue(s, radix).value <= MaxI64
  {
    DigitsValueSome(s, radix);
  }

  /** The empty run (a bare `0x` or `0b` prefix) never parses. */
  lemma StrToNumEmpty(radix: nat)
    ensures StrToNum("", radix).None?
  {
  }
}
