/**
  The pieces of Python's text handling that the joystick normaliser relies on:
  str.strip() with no argument, str.split with a one-character separator,
  int() of a str in base 10, str() of an int, and repr() of a str as it appears
  in the ValueError message of a failed int().
*/
module PyText {
  import opened Wrappers

  /** The characters Python's str.isspace() accepts; str.strip() with no argument removes these. */
  predicate IsSpace(c: char) {
    if c <= ' ' then
      '\t' <= c <= '\r' || '\U{1C}' <= c
    else if c < '\U{85}' then
      false
    else
      c == '\U{85}' || c == '\U{A0}' || c == '\U{1680}' || '\U{2000}' <= c <= '\U{200A}'
      || c == '\U{2028}' || c == '\U{2029}' || c == '\U{202F}' || c == '\U{205F}' || c == '\U{3000}'
  }

  /**
    The white space int() skips around a literal. Below U+007F int() skips only tab to carriage
    return and the space (CPython's own locale-independent table), so the four separator controls
    U+001C..U+001F, which str.isspace() accepts, are not skipped; above it every str.isspace()
    character is.
  */
  predicate IsIntSpace(c: char) {
    IsSpace(c) && !('\U{1C}' <= c <= '\U{1F}')
  }

  /** Which white space a trim removes: that of str.strip() or that of int(). */
  datatype Spaces = StrSpaces | IntSpaces

  predicate Blank(sp: Spaces, c: char) {
    if sp == StrSpaces then IsSpace(c) else IsIntSpace(c)
  }

  predicate AllBlank(sp: Spaces, s: string) {
    forall i :: 0 <= i < |s| ==> Blank(sp, s[i])
  }

  /** Neither end of s is white space of the set sp (s may be empty). */
  predicate Trimmed(sp: Spaces, s: string) {
    s == [] || (!Blank(sp, s[0]) && !Blank(sp, s[|s| - 1]))
  }

  /** Every character is str.isspace() white space. */
  predicate AllSpace(s: string) {
    AllBlank(StrSpaces, s)
  }

  /** Neither end is str.isspace() white space: what str.strip() leaves. */
  predicate Stripped(s: string) {
    Trimmed(StrSpaces, s)
  }

  /** s with its leading white space removed. */
  function TrimStart(sp: Spaces, s: string): (r: string)
    ensures |r| <= |s|
  {
    if s != [] && Blank(sp, s[0]) then TrimStart(sp, s[1..]) else s
  }

  /** s with its trailing white space removed. */
  function TrimEnd(sp: Spaces, s: string): (r: string)
    ensures |r| <= |s|
  {
    if s != [] && Blank(sp, s[|s| - 1]) then TrimEnd(sp, s[..|s| - 1]) else s
  }

  /** s with the white space of the set sp removed at both ends. */
  function Trim(sp: Spaces, s: string): (r: string)
    ensures |r| <= |s|
  {
    TrimEnd(sp, TrimStart(sp, s))
  }

  /** str.strip() with no argument. */
  function Strip(s: string): (r: string)
    ensures |r| <= |s|
  {
    Trim(StrSpaces, s)
  }

  /** The int() white space is part of the str.isspace() white space. */
  lemma IntBlankIsSpace(s: string)
    requires AllBlank(IntSpaces, s)
    ensures AllSpace(s)
  {
  }

  /** TrimStart drops an all-space prefix and stops at the first non-space character. */
  lemma {:induction false} TrimStartSpec(sp: Spaces, s: string)
    ensures var r := TrimStart(sp, s);
      r == s[|s| - |r|..] && AllBlank(sp, s[..|s| - |r|]) && (r == [] || !Blank(sp, r[0]))
  {
    if s != [] && Blank(sp, s[0]) {
      TrimStartSpec(sp, s[1..]);
      var r := TrimStart(sp, s);
      assert s[1..][|s| - 1 - |r|..] == s[|s| - |r|..];
      assert forall i :: 1 <= i < |s| - |r| ==> s[i] == s[1..][..|s| - 1 - |r|][i - 1];
    }
  }

  /** TrimEnd drops an all-space suffix and stops at the last non-space character. */
  lemma {:induction false} TrimEndSpec(sp: Spaces, s: string)
    ensures var r := TrimEnd(sp, s);
      r == s[..|r|] && AllBlank(sp, s[|r|..]) && (r == [] || !Blank(sp, r[|r| - 1]))
  {
    if s != [] && Blank(sp, s[|s| - 1]) {
      var s' := s[..|s| - 1];
      TrimEndSpec(sp, s');
      var r := TrimEnd(sp, s);
      assert s'[..|r|] == s[..|r|];
      assert forall i :: |r| <= i < |s| - 1 ==> s[i] == s'[|r|..][i - |r|];
    }
  }

  /** A trim leaves no white space of its set at either end. */
  lemma TrimSpec(sp: Spaces, s: string)
    ensures Trimmed(sp, Trim(sp, s))
  {
    var t := TrimStart(sp, s);
    TrimStartSpec(sp, s);
    TrimEndSpec(sp, t);
    var r := TrimEnd(sp, t);
    if r != [] {
      assert r[0] == t[0];
    }
  }

  /** TrimStart removes exactly an all-space prefix in front of a non-space character. */
  lemma {:induction false} TrimStartSpaces(sp: Spaces, a: string, u: string)
    requires AllBlank(sp, a) && (u == [] || !Blank(sp, u[0]))
    ensures TrimStart(sp, a + u) == u
  {
    if a == [] {
      assert a + u == u;
    } else {
      assert (a + u)[0] == a[0];
      assert (a + u)[1..] == a[1..] + u;
      TrimStartSpaces(sp, a[1..], u);
    }
  }

  /** TrimEnd removes exactly an all-space suffix behind a non-space character. */
  lemma {:induction false} TrimEndSpaces(sp: Spaces, u: string, b: string)
    requires AllBlank(sp, b) && (u == [] || !Blank(sp, u[|u| - 1]))
    ensures TrimEnd(sp, u + b) == u
  {
    var s := u + b;
    if b == [] {
      assert s == u;
    } else {
      var b' := b[..|b| - 1];
      assert s[|s| - 1] == b[|b| - 1];
      assert s[..|s| - 1] == u + b';
      TrimEndSpaces(sp, u, b');
    }
  }

  /** A trim removes exactly the white space around a trimmed text, and nothing from it. */
  lemma TrimPadded(sp: Spaces, a: string, t: string, b: string)
    requires AllBlank(sp, a) && AllBlank(sp, b) && Trimmed(sp, t)
    ensures Trim(sp, a + t + b) == t
  {
    if t == [] {
      assert a + t + b == (a + b) + [];
      TrimStartSpaces(sp, a + b, []);
    } else {
      assert a + t + b == a + (t + b);
      TrimStartSpaces(sp, a, t + b);
      TrimEndSpaces(sp, t, b);
    }
  }

  /** A trim gives the empty text exactly when the input is all white space. */
  lemma TrimEmpty(sp: Spaces, s: string)
    ensures Trim(sp, s) == [] <==> AllBlank(sp, s)
  {
    var t := TrimStart(sp, s);
    TrimStartSpec(sp, s);
    TrimEndSpec(sp, t);
    if Trim(sp, s) == [] {
      assert t[..0] == [];
      assert s == s[..|s| - |t|] + t;
    } else {
      var k := |s| - |t|;
      assert s[k] == t[0];
    }
  }

  /** Trimming twice is trimming once. */
  lemma TrimIdempotent(sp: Spaces, s: string)
    ensures Trim(sp, Trim(sp, s)) == Trim(sp, s)
  {
    var t := Trim(sp, s);
    TrimSpec(sp, s);
    assert [] + t + [] == t;
    TrimPadded(sp, [], t, []);
  }

  predicate IsDigit(c: char) {
    '0' <= c <= '9'
  }

  function DigitValue(c: char): (v: nat)
    requires IsDigit(c)
    ensures v < 10
  {
    c as int - '0' as int
  }

  function DigitChar(d: nat): (c: char)
    requires d < 10
    ensures IsDigit(c) && DigitValue(c) == d
  {
    ('0' as int + d) as char
  }

  /**
    The digit part int() accepts in base 10: ASCII digits, with single underscores allowed
    between two digits ("1_000", not "_1", "1_" or "1__0").
  */
  predicate WellFormedDigits(s: string) {
    |s| > 0 && IsDigit(s[0]) && IsDigit(s[|s| - 1]) && DigitsOrUnderscores(s)
    && forall i :: 0 <= i < |s| - 1 && s[i] == '_' ==> IsDigit(s[i + 1])
  }

  predicate DigitsOrUnderscores(s: string) {
    forall i :: 0 <= i < |s| ==> IsDigit(s[i]) || s[i] == '_'
  }

  /** The value of a decimal digit string, underscores ignored. */
  function DigitsValue(s: string): nat
    requires DigitsOrUnderscores(s)
  {
    if s == [] then 0
    else if s[|s| - 1] == '_' then DigitsValue(s[..|s| - 1])
    else 10 * DigitsValue(s[..|s| - 1]) + DigitValue(s[|s| - 1])
  }

  /**
    int(s) for a str s: surrounding int() white space is ignored, then an optional sign, then
    the digits. None stands for the ValueError int() raises.
  */
  function ParseInt(s: string): Option<int> {
    var t := Trim(IntSpaces, s);
    if |t| > 0 && (t[0] == '-' || t[0] == '+') then
      var ds := t[1..];
      if WellFormedDigits(ds) then
        var v: int := DigitsValue(ds);
        Some(if t[0] == '-' then -v else v)
      else None
    else if WellFormedDigits(t) then
      Some(DigitsValue(t))
    else None
  }

  /** str(n) for n >= 0. */
  function ShowNat(n: nat): (s: string)
    ensures |s| > 0
  {
    if n < 10 then [DigitChar(n)] else ShowNat(n / 10) + [DigitChar(n % 10)]
  }

  /** str(n): a minus sign for negative numbers, then the decimal digits, no leading zeros. */
  function Show(n: int): (s: string)
    ensures |s| > 0
  {
    if n < 0 then "-" + ShowNat(-n) else ShowNat(n)
  }

  lemma {:induction false} ShowNatDigits(n: nat)
    ensures forall i :: 0 <= i < |ShowNat(n)| ==> IsDigit(ShowNat(n)[i])
  {
    if n >= 10 {
      ShowNatDigits(n / 10);
    }
  }

  /** str(n) is a minus sign or a digit, then digits; it has no white space and no comma. */
  lemma ShowChars(n: int)
    ensures var s := Show(n);
      IsDigit(s[|s| - 1]) && (IsDigit(s[0]) || s[0] == '-')
      && (forall i :: 0 <= i < |s| ==> IsDigit(s[i]) || s[i] == '-')
    ensures Stripped(Show(n)) && Trimmed(IntSpaces, Show(n)) && ',' !in Show(n)
  {
    ShowNatDigits(if n < 0 then -n else n);
  }

  lemma {:induction false} ShowNatValue(n: nat)
    ensures WellFormedDigits(ShowNat(n))
    ensures DigitsValue(ShowNat(n)) == n
  {
    var s := ShowNat(n);
    ShowNatDigits(n);
    if n >= 10 {
      ShowNatValue(n / 10);
      assert s[..|s| - 1] == ShowNat(n / 10);
    }
  }

  /** int() reads back what str() writes, whatever int() white space surrounds it. */
  lemma ParseShow(a: string, n: int, b: string)
    requires AllBlank(IntSpaces, a) && AllBlank(IntSpaces, b)
    ensures ParseInt(a + Show(n) + b) == Some(n)
  {
    var s := Show(n);
    ShowChars(n);
    TrimPadded(IntSpaces, a, s, b);
    ShowNatValue(if n < 0 then -n else n);
    if n < 0 {
      assert s[1..] == ShowNat(-n);
    }
  }

  /** int() reads back what str() writes, followed by int() white space. */
  lemma ParseShowBefore(n: int, b: string)
    requires AllBlank(IntSpaces, b)
    ensures ParseInt(Show(n) + b) == Some(n)
  {
    assert [] + Show(n) + b == Show(n) + b;
    ParseShow([], n, b);
  }

  /**
    int() rejects a text holding any character other than a digit, an underscore, a sign or
    int() white space; among these are the separator controls U+001C..U+001F.
  */
  lemma ParseIntForeign(s: string, i: nat)
    requires i < |s| && !IsDigit(s[i]) && s[i] != '_' && s[i] != '+' && s[i] != '-'
    requires !Blank(IntSpaces, s[i])
    ensures ParseInt(s) == None
  {
    var t := TrimStart(IntSpaces, s);
    TrimStartSpec(IntSpaces, s);
    TrimEndSpec(IntSpaces, t);
    var r := TrimEnd(IntSpaces, t);
    var k := |s| - |t|;
    forall j | 0 <= j < k
      ensures Blank(IntSpaces, s[j])
    {
      assert s[..k][j] == s[j];
    }
    forall j | k + |r| <= j < |s|
      ensures Blank(IntSpaces, s[j])
    {
      assert t[|r|..][j - k - |r|] == s[j];
    }
    assert k <= i < k + |r|;
    assert r[i - k] == s[i];
    if i > k {
      assert r[1..][i - k - 1] == s[i];
    }
  }

  function Count(s: string, c: char): nat {
    if s == [] then 0 else (if s[0] == c then 1 else 0) + Count(s[1..], c)
  }

  /** str.split(sep) for a one-character separator: the pieces between the separators. */
  function Split(s: string, sep: char): (r: seq<string>)
    ensures |r| > 0
  {
    if s == [] then [[]]
    else
      var rest := Split(s[1..], sep);
      if s[0] == sep then [[]] + rest else [[s[0]] + rest[0]] + rest[1..]
  }

  /** There is one more piece than there are separators, and no piece holds a separator. */
  lemma {:induction false} SplitSpec(s: string, sep: char)
    ensures |Split(s, sep)| == Count(s, sep) + 1
    ensures forall i :: 0 <= i < |Split(s, sep)| ==> sep !in Split(s, sep)[i]
  {
    if s != [] {
      SplitSpec(s[1..], sep);
    }
  }

  /** sep.join(parts). */
  function Join(parts: seq<string>, sep: char): string
    requires |parts| > 0
  {
    if |parts| == 1 then parts[0] else parts[0] + [sep] + Join(parts[1..], sep)
  }

  /** Joining the pieces of a split gives back the text. */
  lemma {:induction false} JoinSplit(s: string, sep: char)
    ensures Join(Split(s, sep), sep) == s
  {
    if s != [] {
      var rest := Split(s[1..], sep);
      JoinSplit(s[1..], sep);
      if s[0] != sep {
        var r := Split(s, sep);
        assert r[1..] == rest[1..];
        if |rest| > 1 {
          assert Join(rest, sep) == rest[0] + [sep] + Join(rest[1..], sep);
        }
      }
    }
  }

  /** Splitting a join of separator-free pieces gives back the pieces. */
  lemma {:induction false} SplitJoin(parts: seq<string>, sep: char)
    requires |parts| > 0 && forall i :: 0 <= i < |parts| ==> sep !in parts[i]
    ensures Split(Join(parts, sep), sep) == parts
  {
    if |parts| == 1 {
      SplitPiece(parts[0], sep, []);
      assert parts[0] + [] == parts[0];
      assert [parts[0]] == parts;
    } else {
      var tail := Join(parts[1..], sep);
      SplitJoin(parts[1..], sep);
      assert parts[0] + [sep] + tail == parts[0] + ([sep] + tail);
      SplitPiece(parts[0], sep, [sep] + tail);
      var r := Split([sep] + tail, sep);
      assert r == [[]] + parts[1..] by {
        assert ([sep] + tail)[1..] == tail;
      }
      assert parts[0] + r[0] == parts[0];
      assert [parts[0]] + r[1..] == parts;
    }
  }

  /** A separator-free piece in front of the text joins the first piece of the split. */
  lemma {:induction false} SplitPiece(p: string, sep: char, s: string)
    requires sep !in p
    ensures var r := Split(s, sep); Split(p + s, sep) == [p + r[0]] + r[1..]
  {
    if p != [] {
      SplitPiece(p[1..], sep, s);
      assert (p + s)[1..] == p[1..] + s;
      assert [p[0]] + (p[1..] + Split(s, sep)[0]) == p + Split(s, sep)[0];
    } else {
      var r := Split(s, sep);
      assert p + s == s;
      assert p + r[0] == r[0];
      assert [r[0]] + r[1..] == r;
    }
  }

  /** Splitting "a<sep>b" with no separator in a or b gives [a, b]. */
  lemma SplitPair(a: string, sep: char, b: string)
    requires sep !in a && sep !in b
    ensures Split(a + [sep] + b, sep) == [a, b]
  {
    SplitJoin([a, b], sep);
    assert Join([a, b], sep) == a + [sep] + Join([b], sep);
  }

  /** The characters repr() writes as hexadecimal escapes (the non-printable ones). */
  predicate NonPrintable(c: char) {
    c < ' ' || '\U{7F}' <= c <= '\U{A0}' || c == '\U{AD}' || (IsSpace(c) && c != ' ')
  }

  function HexDigit(d: nat): (c: char)
    requires d < 16
  {
    if d < 10 then DigitChar(d) else ('a' as int + (d - 10)) as char
  }

  /** The last n hexadecimal digits of v, lower case. */
  function Hex(v: nat, n: nat): (s: string)
    ensures |s| == n
  {
    if n == 0 then [] else Hex(v / 16, n - 1) + [HexDigit(v % 16)]
  }

  /** One character of a repr() body, quoted with q. */
  function EscapeChar(c: char, q: char): string {
    if c == q || c == '\\' then ['\\', c]
    else if c == '\t' then "\\t"
    else if c == '\n' then "\\n"
    else if c == '\r' then "\\r"
    else if NonPrintable(c) then
      if c as int < 0x100 then "\\x" + Hex(c as int, 2)
      else if c as int < 0x10000 then "\\u" + Hex(c as int, 4)
      else "\\U" + Hex(c as int, 8)
    else [c]
  }

  function Escape(s: string, q: char): string {
    if s == [] then [] else EscapeChar(s[0], q) + Escape(s[1..], q)
  }

  /** repr(s): double quotes when s has a single quote and no double quote, single quotes otherwise. */
  function Repr(s: string): (r: string)
    ensures |r| >= 2 && r[0] == r[|r| - 1] && (r[0] == '\'' || r[0] == '"')
  {
    var q := if '\'' in s && '"' !in s then '"' else '\'';
    [q] + Escape(s, q) + [q]
  }

  /** Printable ASCII other than quotes and backslashes: the text repr() writes as it is. */
  predicate PlainText(s: string) {
    forall i :: 0 <= i < |s| ==> s[i] != '\'' && s[i] != '"' && s[i] != '\\' && ' ' <= s[i] < '\U{7F}'
  }

  lemma {:induction false} EscapePlain(s: string, q: char)
    requires PlainText(s) && (q == '\'' || q == '"')
    ensures Escape(s, q) == s
  {
    if s != [] {
      assert EscapeChar(s[0], q) == [s[0]];
      EscapePlain(s[1..], q);
      assert [s[0]] + s[1..] == s;
    }
  }

  /** repr() of plain text is the text itself between single quotes. */
  lemma ReprPlain(s: string)
    requires PlainText(s)
    ensures Repr(s) == "'" + s + "'"
  {
    EscapePlain(s, '\'');
  }
}
