/** The string functions the parse listener applies to token texts. */
module Text {
  import opened Values

  const MIN_INT64: int := -0x8000_0000_0000_0000
  const MAX_INT64: int := 0x7FFF_FFFF_FFFF_FFFF

  // ---------- strings.Trim with a one-character cutset ----------

  function TrimLeft(s: string, c: char): string {
    if s != [] && s[0] == c then TrimLeft(s[1..], c) else s
  }

  function TrimRight(s: string, c: char): string {
    if s != [] && s[|s| - 1] == c then TrimRight(s[..|s| - 1], c) else s
  }

  function Trim(s: string, c: char): string {
    TrimRight(TrimLeft(s, c), c)
  }

  /** Removes every double quote: strings.ReplaceAll of a quote by nothing. */
  function StripQuotes(s: string): string {
    if s == [] then []
    else (if s[0] == '\"' then [] else [s[0]]) + StripQuotes(s[1..])
  }

  /** The text @name yields is the rule's name exactly when the name has no quote inside. */
  lemma {:induction false} StripQuotesIdentityIff(s: string)
    ensures |StripQuotes(s)| <= |s|
    ensures StripQuotes(s) == s <==> '\"' !in s
  {
    if s != [] {
      StripQuotesIdentityIff(s[1..]);
      assert s == [s[0]] + s[1..];
    }
  }

  // ---------- strconv.ParseInt(s, 10, 64) ----------

  predicate IsDigit(c: char) {
    '0' <= c <= '9'
  }

  predicate AllDigits(s: string) {
    forall i | 0 <= i < |s| :: IsDigit(s[i])
  }

  function DigitsValue(s: string): nat
    requires AllDigits(s)
  {
    if s == [] then 0
    else 10 * DigitsValue(s[..|s| - 1]) + (s[|s| - 1] as int - '0' as int)
  }

  /** A sign or none, at least one digit, and a value within 64 bits; anything else is an error. */
  function ParseInt(s: string): Option<int> {
    var signed := s != [] && (s[0] == '-' || s[0] == '+');
    var digits := if signed then s[1..] else s;
    if digits == [] || !AllDigits(digits) then None
    else
      var n := if s[0] == '-' then -(DigitsValue(digits) as int) else DigitsValue(digits);
      if MIN_INT64 <= n <= MAX_INT64 then Some(n) else None
  }

  // ---------- strconv.ParseBool, as far as the boolean tokens reach ----------

  function ParseBool(s: string): Option<bool> {
    if s == "1" || s == "t" || s == "T" || s == "TRUE" || s == "true" || s == "True" then Some(true)
    else if s == "0" || s == "f" || s == "F" || s == "FALSE" || s == "false" || s == "False" then Some(false)
    else None
  }

  // ---------- The salience text: keyword and integer in one token text ----------

  function Lower(c: char): char {
    if 'A' <= c <= 'Z' then (c as int + 32) as char else c
  }

  function ToLower(s: string): string {
    seq(|s|, i requires 0 <= i < |s| => Lower(s[i]))
  }

  const SALIENCE: string := "salience"

  /** strings.ReplaceAll(s, "salience", ""). */
  function DropKeyword(s: string): string {
    if s == [] then []
    else if SALIENCE <= s then DropKeyword(s[8..])
    else [s[0]] + DropKeyword(s[1..])
  }

  lemma {:induction false} DropNothing(t: string)
    requires forall i | 0 <= i < |t| :: t[i] != 's'
    ensures DropKeyword(t) == t
  {
    if t != [] {
      assert !(SALIENCE <= t) by {
        assert SALIENCE[0] == 's';
      }
      DropNothing(t[1..]);
      assert t == [t[0]] + t[1..];
    }
  }

  /** However the keyword is spelled, what remains is the integer's own text. */
  lemma SalienceText(keyword: string, t: string)
    requires ToLower(keyword) == SALIENCE
    requires forall i | 0 <= i < |t| :: IsDigit(t[i]) || t[i] == '-'
    ensures DropKeyword(ToLower(keyword + t)) == t
  {
    var l := ToLower(keyword + t);
    assert l[..8] == SALIENCE by {
      assert |keyword| == 8;
      assert forall i | 0 <= i < 8 :: l[i] == ToLower(keyword)[i];
    }
    assert l[8..] == t;
    assert SALIENCE <= l;
    DropNothing(t);
  }

  // ---------- Laws ----------

  function Repeat(c: char, n: nat): string {
    seq(n, _ => c)
  }

  lemma {:induction false} TrimLeftIs(s: string, c: char) returns (l: nat)
    ensures s == Repeat(c, l) + TrimLeft(s, c)
    ensures TrimLeft(s, c) == "" || TrimLeft(s, c)[0] != c
  {
    l := 0;
    if s != [] && s[0] == c {
      l := TrimLeftIs(s[1..], c);
      assert s == [c] + s[1..];
      assert [c] + Repeat(c, l) == Repeat(c, l + 1);
      l := l + 1;
    }
  }

  lemma {:induction false} TrimRightIs(s: string, c: char) returns (r: nat)
    ensures s == TrimRight(s, c) + Repeat(c, r)
    ensures TrimRight(s, c) == "" || TrimRight(s, c)[|TrimRight(s, c)| - 1] != c
  {
    r := 0;
    if s != [] && s[|s| - 1] == c {
      r := TrimRightIs(s[..|s| - 1], c);
      assert s == s[..|s| - 1] + [c];
      assert Repeat(c, r) + [c] == Repeat(c, r + 1);
      r := r + 1;
    }
  }

  /** Trimming takes off exactly the outer run of the character on either side. */
  lemma TrimIs(s: string, c: char) returns (l: nat, r: nat)
    ensures s == Repeat(c, l) + Trim(s, c) + Repeat(c, r)
    ensures Trim(s, c) == "" || (Trim(s, c)[0] != c && Trim(s, c)[|Trim(s, c)| - 1] != c)
  {
    l := TrimLeftIs(s, c);
    r := TrimRightIs(TrimLeft(s, c), c);
    var t := TrimLeft(s, c);
    if Trim(s, c) != "" {
      assert t[0] == Trim(s, c)[0];
    }
    assert Repeat(c, l) + (Trim(s, c) + Repeat(c, r)) == Repeat(c, l) + Trim(s, c) + Repeat(c, r);
  }

  /** Decimal notation. */
  function Decimal(n: nat): string {
    if n < 10 then [(n + '0' as int) as char] else Decimal(n / 10) + [(n % 10 + '0' as int) as char]
  }

  lemma {:induction false} DecimalDigits(n: nat)
    ensures Decimal(n) != "" && AllDigits(Decimal(n)) && DigitsValue(Decimal(n)) == n
  {
    if n < 10 {
      assert Decimal(n)[..0] == "";
    } else {
      DecimalDigits(n / 10);
      assert Decimal(n)[..|Decimal(n)| - 1] == Decimal(n / 10);
    }
  }

  /** Every 64-bit integer written in decimal is read back; one outside the range is an error. */
  lemma ParseIntRoundTrip(n: int)
    ensures ParseInt(if n < 0 then "-" + Decimal(-n) else Decimal(n)) == if MIN_INT64 <= n <= MAX_INT64 then Some(n) else None
  {
    DecimalDigits(if n < 0 then -n else n);
    if n < 0 {
      assert ("-" + Decimal(-n))[1..] == Decimal(-n);
    }
  }
}
