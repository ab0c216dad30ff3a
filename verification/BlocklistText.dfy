/** The text of a blocklist row: splitting it, reading the prefix length, and the dotted addresses
    under which the index files it. */
module BlocklistText {
  import opened Results
  import opened Blocklist

  // ---- Decimal numbers ----

  function Digit(n: nat): char
    requires n < 10
  {
    '0' + n as char
  }

  predicate IsDigit(c: char) {
    '0' <= c <= '9'
  }

  function DigitValue(c: char): nat
    requires IsDigit(c)
  {
    (c - '0') as nat
  }

  function Decimal(n: nat): string {
    if n < 10 then [Digit(n)] else Decimal(n / 10) + [Digit(n % 10)]
  }

  /** The number of digits that a text starts with. */
  function Digits(s: string): nat {
    if s == "" || !IsDigit(s[0]) then 0 else 1 + Digits(s[1..])
  }

  function Value(s: string): nat
    requires forall c <- s :: IsDigit(c)
  {
    if s == "" then 0
    else
      assert s[|s| - 1] in s && forall c <- s[..|s| - 1] :: c in s;
      10 * Value(s[..|s| - 1]) + DigitValue(s[|s| - 1])
  }

  lemma {:induction false} DigitsWithin(s: string)
    ensures Digits(s) <= |s| && forall i :: 0 <= i < Digits(s) ==> IsDigit(s[i])
    ensures (forall c <- s :: IsDigit(c)) ==> Digits(s) == |s|
  {
    if s != "" && IsDigit(s[0]) {
      DigitsWithin(s[1..]);
      assert forall i :: 0 < i < Digits(s) ==> s[i] == s[1..][i - 1];
      assert forall c <- s[1..] :: c in s;
    }
  }

  /** `parseInt(s, 10)` of a trimmed text: a sign and leading digits, or nothing. */
  function ParseInt(s: string): Option<int> {
    var signed := s != "" && (s[0] == '-' || s[0] == '+');
    var digits := if signed then s[1..] else s;
    DigitsWithin(digits);
    if Digits(digits) == 0 then None
    else
      var n: int := Value(digits[..Digits(digits)]);
      Some(if signed && s[0] == '-' then -n else n)
  }

  lemma {:induction false} DecimalIsDigits(n: nat)
    ensures Decimal(n) != "" && (forall c <- Decimal(n) :: IsDigit(c)) && Value(Decimal(n)) == n
  {
    if n >= 10 {
      DecimalIsDigits(n / 10);
      assert Decimal(n)[..|Decimal(n)| - 1] == Decimal(n / 10);
    }
  }

  /** Reading a number back. */
  lemma ParseDecimal(n: nat)
    ensures ParseInt(Decimal(n)) == Some(n)
  {
    hide Decimal, Value, Digits;
    DecimalIsDigits(n);
    var s := Decimal(n);
    assert IsDigit(s[0]);
    DigitsWithin(s);
    assert s[..|s|] == s;
  }

  // ---- Splitting ----

  /** `s.split(separator)`. */
  function Split(s: string, separator: char): (tokens: seq<string>)
    ensures tokens != []
  {
    if s == "" then [""]
    else
      var rest := Split(s[1..], separator);
      if s[0] == separator then [""] + rest else [[s[0]] + rest[0]] + rest[1..]
  }

  lemma {:induction false} SplitPlain(s: string, separator: char)
    requires separator !in s
    ensures Split(s, separator) == [s]
  {
    if s != "" {
      SplitPlain(s[1..], separator);
      assert s == [s[0]] + s[1..];
    }
  }

  lemma {:induction false} SplitFirst(a: string, separator: char, b: string)
    requires separator !in a
    ensures Split(a + [separator] + b, separator) == [a] + Split(b, separator)
  {
    var s := a + [separator] + b;
    if a == "" {
      assert s[1..] == b;
    } else {
      SplitFirst(a[1..], separator, b);
      assert s[1..] == a[1..] + [separator] + b;
      assert a == [a[0]] + a[1..];
    }
  }

  // ---- Dotted addresses ----

  /** The address in dotted decimal form, as the lookup and the index spell it. */
  function Dotted(a: Address): string {
    Decimal(a / 256 / 256 / 256) + "." + Decimal(a / 256 / 256 % 256) + "." + Decimal(a / 256 % 256) + "."
    + Decimal(a % 256)
  }

  lemma DecimalPlain(n: nat)
    ensures '.' !in Decimal(n) && '/' !in Decimal(n) && '#' !in Decimal(n)
  {
    DecimalIsDigits(n);
    hide Decimal;
    assert forall c <- Decimal(n) :: IsDigit(c);
  }

  lemma DottedParts(a: Address)
    ensures Split(Dotted(a), '.') ==
              [Decimal(a / 256 / 256 / 256), Decimal(a / 256 / 256 % 256), Decimal(a / 256 % 256), Decimal(a % 256)]
  {
    hide Decimal, Split;
    var (w, x) := (Decimal(a / 256 / 256 / 256), Decimal(a / 256 / 256 % 256));
    var (y, z) := (Decimal(a / 256 % 256), Decimal(a % 256));
    DecimalPlain(a / 256 / 256 / 256);
    DecimalPlain(a / 256 / 256 % 256);
    DecimalPlain(a / 256 % 256);
    DecimalPlain(a % 256);
    assert Dotted(a) == w + ['.'] + (x + ['.'] + (y + ['.'] + z));
    SplitFirst(w, '.', x + ['.'] + (y + ['.'] + z));
    SplitFirst(x, '.', y + ['.'] + z);
    SplitFirst(y, '.', z);
    SplitPlain(z, '.');
  }

  /** No two addresses are spelt alike, so filing by text is filing by address. */
  lemma DottedDistinguishes(a: Address, b: Address)
    requires Dotted(a) == Dotted(b)
    ensures a == b
  {
    hide Decimal, Split, ParseInt, Dotted;
    DottedParts(a);
    DottedParts(b);
    SameDecimal(a / 256 / 256 / 256, b / 256 / 256 / 256);
    SameDecimal(a / 256 / 256 % 256, b / 256 / 256 % 256);
    SameDecimal(a / 256 % 256, b / 256 % 256);
    SameDecimal(a % 256, b % 256);
    Rejoined(a / 256 / 256, b / 256 / 256);
    Rejoined(a / 256, b / 256);
    Rejoined(a, b);
  }

  lemma SameDecimal(m: nat, n: nat)
    ensures Decimal(m) == Decimal(n) ==> m == n
  {
    hide Decimal, ParseInt;
    ParseDecimal(m);
    ParseDecimal(n);
  }

  lemma Rejoined(a: nat, b: nat)
    requires a / 256 == b / 256 && a % 256 == b % 256
    ensures a == b
  {
  }

  // ---- Rows ----

  /** The masking of the address library: on dotted addresses and lengths up to 32 it is the masking
      of addresses, and on anything else whatever it is. */
  datatype Library = Library(mask: (string, Option<int>) -> string) {
    ghost predicate Masks() {
      forall a: Address, len: Length :: mask(Dotted(a), Some(len)) == Dotted(GetBaseIp(a, len))
    }
  }

  datatype TextRow = TextRow(baseIp: string, prefixLength: Option<int>)

  /** A row with one slash is a range; with any other number of them, what stands before the first is
      an address. */
  function ParseText(lib: Library, s: string): Option<TextRow> {
    if s != "" && s[0] == '#' then None
    else
      var tokens := Split(s, '/');
      if |tokens| == 2 then
        var prefixLength := ParseInt(tokens[1]);
        Some(TextRow(lib.mask(tokens[0], prefixLength), prefixLength))
      else Some(TextRow(tokens[0], Some(32)))
  }

  /** The text of a line. */
  ghost predicate Spells(s: string, line: Line) {
    match line
    case Comment => s != "" && s[0] == '#'
    case Range(addr, len) => s == Dotted(addr) + "/" + Decimal(len)
    case Single(addr) => s == Dotted(addr)
  }

  lemma DottedPlain(a: Address)
    ensures '/' !in Dotted(a) && Dotted(a) != "" && Dotted(a)[0] != '#'
  {
    hide Decimal;
    DecimalPlain(a / 256 / 256 / 256);
    DecimalPlain(a / 256 / 256 % 256);
    DecimalPlain(a / 256 % 256);
    DecimalPlain(a % 256);
    DecimalIsDigits(a / 256 / 256 / 256);
    assert Dotted(a)[0] == Decimal(a / 256 / 256 / 256)[0];
  }

  /** Parsing the text of a line gives the row of the line, spelt out. */
  lemma TextRowIsRow(lib: Library, s: string, line: Line)
    requires lib.Masks() && Spells(s, line)
    ensures ParseText(lib, s) ==
              match ParseRow(line)
              case None => None
              case Some(row) => Some(TextRow(Dotted(row.baseIp), Some(row.prefixLength)))
  {
    hide Decimal, Split, ParseInt, Dotted, GetBaseIp;
    match line {
      case Comment =>
      case Range(addr, len) =>
        DottedPlain(addr);
        DecimalPlain(len);
        assert s == Dotted(addr) + ['/'] + Decimal(len) && s[0] == Dotted(addr)[0];
        SplitFirst(Dotted(addr), '/', Decimal(len));
        SplitPlain(Decimal(len), '/');
        ParseDecimal(len);
      case Single(addr) =>
        DottedPlain(addr);
        SplitPlain(s, '/');
    }
  }

  /** So a lookup of an address by its text meets a row exactly when the row's line covers it. */
  lemma TextRowMatches(lib: Library, s: string, line: Line, x: Address)
    requires lib.Masks() && Spells(s, line)
    ensures match ParseText(lib, s)
            case None => !Covers(line, x)
            case Some(row) => lib.mask(Dotted(x), row.prefixLength) == row.baseIp <==> Covers(line, x)
  {
    hide Dotted, GetBaseIp, ParseText, Covers;
    TextRowIsRow(lib, s, line);
    RowMatches(line, x);
    if row: Row :| ParseRow(line) == Some(row) {
      if Dotted(GetBaseIp(x, row.prefixLength)) == Dotted(row.baseIp) {
        DottedDistinguishes(GetBaseIp(x, row.prefixLength), row.baseIp);
      }
    }
  }
}
