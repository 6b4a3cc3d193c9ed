/**
 * The slice of Python's data model that the plugin's code relies on:
 * JSON-like values as stored in NetBox custom-field data, `str()`, truth
 * testing, `==`, and the string methods the plugin calls (`strip`, `lower`,
 * `split`, `replace`, `join`, `isdigit`, `int`).
 *
 * Characters are treated as ASCII: `strip` removes ASCII whitespace,
 * `lower` folds A-Z, `isdigit` and `isalnum` accept ASCII digits and letters.
 */
module Py {

  datatype Option<T> = None | Some(value: T)

  datatype Result<T, E> = Ok(value: T) | Err(error: E)

  /** A JSON-like Python value. A dict is kept as its ordered (key, value)
      entries, as a Python dict keeps insertion order. */
  datatype Value =
    | VNone
    | VBool(b: bool)
    | VInt(i: int)
    | VStr(s: string)
    | VList(items: seq<Value>)
    | VDict(entries: seq<(string, Value)>)

  /** A custom-field map (`custom_field_data`): field name to stored value. */
  type CfData = map<string, Value>

  /** `d.get(k)` */
  function Get(d: CfData, k: string): Value
  {
    if k in d then d[k] else VNone
  }

  /** `bool(v)` */
  predicate Truthy(v: Value)
  {
    match v
    case VNone => false
    case VBool(b) => b
    case VInt(i) => i != 0
    case VStr(s) => |s| > 0
    case VList(xs) => |xs| > 0
    case VDict(es) => |es| > 0
  }

  /** `a or b` */
  function Or(a: Value, b: Value): Value
  {
    if Truthy(a) then a else b
  }

  /** `v in (None, "", [], {})`: the plugin's notion of an empty value. */
  predicate EmptyLike(v: Value)
  {
    v == VNone || v == VStr("") || v == VList([]) || v == VDict([])
  }

  lemma EmptyLikeIsFalsy(v: Value)
    ensures EmptyLike(v) ==> !Truthy(v)
    ensures Truthy(v) ==> !EmptyLike(v)
    ensures !Truthy(v) && !EmptyLike(v) <==> v == VBool(false) || v == VInt(0)
  {
  }

  // ------------------------------------------------------------------
  // Characters

  /** Python's `str.isspace` restricted to ASCII. */
  predicate IsSpace(c: char)
  {
    c == ' ' || c == '\t' || c == '\n' || c == '\r' || c == '\U{B}' || c == '\U{C}'
    || c == '\U{1C}' || c == '\U{1D}' || c == '\U{1E}' || c == '\U{1F}'
  }

  predicate IsDigit(c: char)
  {
    '0' <= c <= '9'
  }

  predicate IsAlnum(c: char)
  {
    IsDigit(c) || 'a' <= c <= 'z' || 'A' <= c <= 'Z'
  }

  function LowerChar(c: char): char
  {
    if 'A' <= c <= 'Z' then (c as int + 32) as char else c
  }

  // ------------------------------------------------------------------
  // strip

  /** `s.lstrip(chars)` for a set of characters. */
  function StripLeftOf(s: string, cs: set<char>): (r: string)
    ensures |r| <= |s| && r == s[|s| - |r|..]
    ensures |r| > 0 ==> r[0] !in cs
    ensures forall i :: 0 <= i < |s| - |r| ==> s[i] in cs
  {
    if |s| > 0 && s[0] in cs then StripLeftOf(s[1..], cs) else s
  }

  /** `s.rstrip(chars)` for a set of characters. */
  function StripRightOf(s: string, cs: set<char>): (r: string)
    ensures |r| <= |s| && r == s[..|r|]
    ensures |r| > 0 ==> r[|r| - 1] !in cs
    ensures forall i :: |r| <= i < |s| ==> s[i] in cs
  {
    if |s| > 0 && s[|s| - 1] in cs then StripRightOf(s[..|s| - 1], cs) else s
  }

  /** `s.strip(chars)` */
  function StripOf(s: string, cs: set<char>): (r: string)
    ensures |r| <= |s|
    ensures |r| > 0 ==> r[0] !in cs && r[|r| - 1] !in cs
  {
    StripRightOf(StripLeftOf(s, cs), cs)
  }

  /** `r` is `s` with a prefix and a suffix made only of characters from `cs` cut off. */
  ghost predicate TrimmedOf(s: string, r: string, cs: set<char>)
  {
    exists i, j :: 0 <= i <= j <= |s| && r == s[i..j] &&
      (forall k :: 0 <= k < i ==> s[k] in cs) && (forall k :: j <= k < |s| ==> s[k] in cs)
  }

  /** What stripping removes: only characters from the stripped set, on either side. */
  lemma StripOfShape(s: string, cs: set<char>)
    ensures TrimmedOf(s, StripOf(s, cs), cs)
  {
    var l := StripLeftOf(s, cs);
    var r := StripRightOf(l, cs);
    var i := |s| - |l|;
    var j := i + |r|;
    assert r == s[i..j] by {
      assert l == s[i..] && r == l[..|r|];
    }
    assert forall k :: 0 <= k < i ==> s[k] in cs;
    assert forall k :: j <= k < |s| ==> s[k] in cs by {
      forall k | j <= k < |s|
        ensures s[k] in cs
      {
        assert l == s[i..] && s[k] == l[k - i];
      }
    }
  }

  /** Stripping leaves text alone when its ends are not among the stripped characters. */
  lemma StripOfFixed(s: string, cs: set<char>)
    requires |s| > 0 ==> s[0] !in cs && s[|s| - 1] !in cs
    ensures StripOf(s, cs) == s
  {
  }

  const Whitespace: set<char> :=
    {' ', '\t', '\n', '\r', '\U{B}', '\U{C}', '\U{1C}', '\U{1D}', '\U{1E}', '\U{1F}'}

  lemma WhitespaceIsSpace(c: char)
    ensures c in Whitespace <==> IsSpace(c)
  {
  }

  /** `s.strip()` */
  function Strip(s: string): (r: string)
    ensures |r| <= |s|
    ensures |r| > 0 ==> !IsSpace(r[0]) && !IsSpace(r[|r| - 1])
  {
    StripOf(s, Whitespace)
  }

  /** A string that stripping leaves alone is one that neither starts nor ends with a space. */
  lemma StripFixed(s: string)
    requires |s| > 0 ==> !IsSpace(s[0]) && !IsSpace(s[|s| - 1])
    ensures Strip(s) == s
  {
  }

  lemma {:induction false} StripIdempotent(s: string)
    ensures Strip(Strip(s)) == Strip(s)
  {
    StripFixed(Strip(s));
  }

  // ------------------------------------------------------------------
  // lower, replace, split, join

  /** `s.lower()` */
  function Lower(s: string): (r: string)
    ensures |r| == |s|
    ensures forall i :: 0 <= i < |s| ==> r[i] == LowerChar(s[i])
  {
    seq(|s|, i requires 0 <= i < |s| => LowerChar(s[i]))
  }

  /** Text without capitals is its own lower case. */
  lemma LowerFixed(s: string)
    requires forall i :: 0 <= i < |s| ==> !('A' <= s[i] <= 'Z')
    ensures Lower(s) == s
  {
    assert forall i :: 0 <= i < |s| ==> Lower(s)[i] == s[i];
  }

  lemma LowerIdempotent(s: string)
    ensures Lower(Lower(s)) == Lower(s)
  {
  }

  /** `s.replace(a, b)` for single characters. */
  function ReplaceChar(s: string, a: char, b: char): (r: string)
    ensures |r| == |s|
    ensures forall i :: 0 <= i < |s| ==> r[i] == if s[i] == a then b else s[i]
  {
    seq(|s|, i requires 0 <= i < |s| => if s[i] == a then b else s[i])
  }

  /** `s.split(sep)` for a one-character separator. */
  function Split(s: string, sep: char): (r: seq<string>)
    ensures |r| > 0
    ensures forall k :: 0 <= k < |r| ==> sep !in r[k]
  {
    if |s| == 0 then [""]
    else
      var rest := Split(s[1..], sep);
      if s[0] == sep then [""] + rest else [[s[0]] + rest[0]] + rest[1..]
  }

  /** `sep.join(parts)` */
  function Join(sep: string, parts: seq<string>): string
  {
    if |parts| == 0 then ""
    else if |parts| == 1 then parts[0]
    else parts[0] + sep + Join(sep, parts[1..])
  }

  /** Splitting and re-joining with the same separator gives the text back. */
  lemma {:induction false} JoinSplit(s: string, sep: char)
    ensures Join([sep], Split(s, sep)) == s
  {
    if |s| > 0 {
      var rest := Split(s[1..], sep);
      JoinSplit(s[1..], sep);
      if s[0] == sep {
        assert Split(s, sep) == [""] + rest;
      } else {
        var r := [[s[0]] + rest[0]] + rest[1..];
        assert Split(s, sep) == r;
        if |rest| == 1 {
          assert Join([sep], r) == [s[0]] + rest[0];
        } else {
          assert r[1..] == rest[1..];
          assert Join([sep], r) == [s[0]] + rest[0] + [sep] + Join([sep], rest[1..]);
        }
      }
    }
  }

  /** `str(v).replace("\n", ",").split(",")`: the CSV/newline tokenisation the plugin uses. */
  function CsvTokens(s: string): (r: seq<string>)
    ensures |r| > 0
    ensures forall k :: 0 <= k < |r| ==> ',' !in r[k] && '\n' !in r[k]
  {
    var t := ReplaceChar(s, '\n', ',');
    var r := Split(t, ',');
    assert forall k, i :: 0 <= k < |r| && 0 <= i < |r[k]| ==> r[k][i] != '\n' by {
      SplitPiecesFrom(t, ',');
    }
    r
  }

  /** Every character of a piece of `Split(s, sep)` is a character of `s`. */
  lemma {:induction false} SplitPiecesFrom(s: string, sep: char)
    ensures forall k, i :: 0 <= k < |Split(s, sep)| && 0 <= i < |Split(s, sep)[k]| ==>
      Split(s, sep)[k][i] in s
  {
    if |s| > 0 {
      SplitPiecesFrom(s[1..], sep);
    }
  }

  // ------------------------------------------------------------------
  // Numbers

  /** `s.isdigit()` (ASCII): non-empty and every character a digit. */
  predicate IsDigits(s: string)
  {
    |s| > 0 && forall i :: 0 <= i < |s| ==> IsDigit(s[i])
  }

  function DigitValue(c: char): nat
    requires IsDigit(c)
  {
    c as int - '0' as int
  }

  /** The number written by a string of decimal digits. */
  function DigitsValue(s: string): nat
    requires forall i :: 0 <= i < |s| ==> IsDigit(s[i])
  {
    if |s| == 0 then 0 else 10 * DigitsValue(s[..|s| - 1]) + DigitValue(s[|s| - 1])
  }

  function DigitChar(d: nat): (c: char)
    requires d < 10
    ensures IsDigit(c) && DigitValue(c) == d
  {
    ('0' as int + d) as char
  }

  /** Decimal text of a natural number, as `str(n)`. */
  function NatToStr(n: nat): (r: string)
    ensures IsDigits(r)
  {
    if n < 10 then [DigitChar(n)] else NatToStr(n / 10) + [DigitChar(n % 10)]
  }

  lemma {:induction false} NatToStrRoundTrip(n: nat)
    ensures DigitsValue(NatToStr(n)) == n
  {
    if n >= 10 {
      NatToStrRoundTrip(n / 10);
      var r := NatToStr(n);
      assert r[..|r| - 1] == NatToStr(n / 10);
    }
  }

  /** `str(i)` for an int. */
  function IntToStr(i: int): string
  {
    if i < 0 then "-" + NatToStr(-i) else NatToStr(i)
  }

  /** `int(s)` for a str: surrounding whitespace, an optional sign, then decimal digits.
      None stands for the ValueError Python raises. */
  function ParseInt(s: string): Option<int>
  {
    var t := Strip(s);
    if IsDigits(t) then Some(DigitsValue(t))
    else if |t| > 1 && t[0] == '+' && IsDigits(t[1..]) then Some(DigitsValue(t[1..]))
    else if |t| > 1 && t[0] == '-' && IsDigits(t[1..]) then Some(-(DigitsValue(t[1..]) as int))
    else None
  }

  /** A plain run of digits parses to the number it writes. */
  lemma ParseIntDigits(s: string)
    requires IsDigits(s)
    ensures ParseInt(s) == Some(DigitsValue(s))
  {
    StripFixed(s);
  }

  lemma {:induction false} ParseIntOfIntToStr(i: int)
    ensures ParseInt(IntToStr(i)) == Some(i)
  {
    var t := IntToStr(i);
    if i < 0 {
      var d := NatToStr(-i);
      NatToStrRoundTrip(-i);
      assert t == "-" + d && t[1..] == d;
      assert !IsDigits(t) by { assert !IsDigit(t[0]); }
      assert t[|t| - 1] == d[|d| - 1];
      StripFixed(t);
    } else {
      NatToStrRoundTrip(i);
      ParseIntDigits(t);
    }
  }

  // ------------------------------------------------------------------
  // str(), repr(), ==

  /** The quote `repr` puts around a string: `"` when the text holds `'` but no `"`,
      otherwise `'`. */
  function QuoteFor(s: string): char
  {
    if '\'' in s && '"' !in s then '"' else '\''
  }

  /** A character `repr` writes as `\xhh`: the C0 controls other than tab, newline and
      carriage return, DEL, the C1 controls, the no-break space and the soft hyphen. */
  predicate HexEscaped(c: char)
  {
    (c as int < 0x20 && c != '\t' && c != '\n' && c != '\r') || (0x7f <= c as int <= 0xa0) || c as int == 0xad
  }

  /** The lower-case hex digit of `n`. */
  function HexDigit(n: int): char
    requires 0 <= n < 16
  {
    if n < 10 then ('0' as int + n) as char else ('a' as int + n - 10) as char
  }

  predicate IsHexDigit(d: char)
  {
    '0' <= d <= '9' || 'a' <= d <= 'f'
  }

  /** The value of a lower-case hex digit. */
  function HexValue(d: char): (n: int)
    requires IsHexDigit(d)
    ensures 0 <= n < 16 && HexDigit(n) == d
  {
    if d <= '9' then d as int - '0' as int else d as int - 'a' as int + 10
  }

  /** How `repr` writes one character inside quotes `q`. */
  function EscapeChar(c: char, q: char): string
  {
    if c == '\\' || c == q then ['\\', c]
    else if c == '\n' then "\\n"
    else if c == '\r' then "\\r"
    else if c == '\t' then "\\t"
    else if HexEscaped(c) then ['\\', 'x', HexDigit(c as int / 16), HexDigit(c as int % 16)]
    else [c]
  }

  /** The text between the quotes of `repr(s)`. */
  function Escape(s: string, q: char): string
    decreases |s|
  {
    if |s| == 0 then "" else EscapeChar(s[0], q) + Escape(s[1..], q)
  }

  /** `repr(s)` of a str. */
  function ReprStr(s: string): string
  {
    var q := QuoteFor(s);
    [q] + Escape(s, q) + [q]
  }

  function Prepend(c: char, r: Option<string>): Option<string>
  {
    if r.Some? then Some([c] + r.value) else None
  }

  /** Reads the text between the quotes `q` of a string literal back: the escapes `repr`
      writes; a bare quote or a dangling backslash is refused. */
  function Unescape(t: string, q: char): Option<string>
    decreases |t|
  {
    if |t| == 0 then Some("")
    else if t[0] == q then None
    else if t[0] != '\\' then Prepend(t[0], Unescape(t[1..], q))
    else if |t| < 2 then None
    else if t[1] == '\\' || t[1] == q then Prepend(t[1], Unescape(t[2..], q))
    else if t[1] == 'n' then Prepend('\n', Unescape(t[2..], q))
    else if t[1] == 'r' then Prepend('\r', Unescape(t[2..], q))
    else if t[1] == 't' then Prepend('\t', Unescape(t[2..], q))
    else if t[1] == 'x' && |t| >= 4 && IsHexDigit(t[2]) && IsHexDigit(t[3]) then
      Prepend((HexValue(t[2]) * 16 + HexValue(t[3])) as char, Unescape(t[4..], q))
    else None
  }

  /** A `\xhh` escape reads back as its character. */
  lemma UnescapeHex(c: char, q: char, rest: string)
    requires q == '\'' || q == '"'
    requires HexEscaped(c) && c != q
    ensures Unescape(['\\', 'x', HexDigit(c as int / 16), HexDigit(c as int % 16)] + rest, q) == Prepend(c, Unescape(rest, q))
  {
    var hi, lo := c as int / 16, c as int % 16;
    var t := ['\\', 'x', HexDigit(hi), HexDigit(lo)] + rest;
    assert HexValue(HexDigit(hi)) == hi && HexValue(HexDigit(lo)) == lo;
    assert (hi * 16 + lo) as char == c;
    assert t[4..] == rest;
  }

  /** One escaped character reads back as itself. */
  lemma UnescapeChar(c: char, q: char, rest: string)
    requires q == '\'' || q == '"'
    ensures Unescape(EscapeChar(c, q) + rest, q) == Prepend(c, Unescape(rest, q))
  {
    var t := EscapeChar(c, q) + rest;
    if c == '\\' || c == q {
      assert t[2..] == rest;
    } else if c == '\n' || c == '\r' || c == '\t' {
      assert t[2..] == rest;
    } else if HexEscaped(c) {
      UnescapeHex(c, q, rest);
    } else {
      assert t[1..] == rest;
    }
  }

  /** The quoted text reads back as the string: `repr` loses nothing. */
  lemma {:induction false} UnescapeEscape(s: string, q: char)
    requires q == '\'' || q == '"'
    ensures Unescape(Escape(s, q), q) == Some(s)
    decreases |s|
  {
    if |s| > 0 {
      UnescapeEscape(s[1..], q);
      assert Escape(s, q) == EscapeChar(s[0], q) + Escape(s[1..], q);
      UnescapeChar(s[0], q, Escape(s[1..], q));
      assert [s[0]] + s[1..] == s;
      assert Prepend(s[0], Some(s[1..])) == Some(s);
    }
  }

  /** `repr(s)` is quoted with the quote `QuoteFor` picks, and its inside reads back as `s`;
      so distinct strings have distinct reprs. */
  lemma ReprStrRoundTrip(s: string)
    ensures var r := ReprStr(s);
      |r| >= 2 && r[0] == QuoteFor(s) && r[|r| - 1] == QuoteFor(s) &&
      (r[0] == '"' <==> '\'' in s && '"' !in s) &&
      Unescape(r[1..|r| - 1], r[0]) == Some(s)
  {
    var q := QuoteFor(s);
    var r := ReprStr(s);
    assert r[1..|r| - 1] == Escape(s, q);
    UnescapeEscape(s, q);
  }

  /** Text without quotes, backslashes or characters `repr` escapes is simply put in `'`. */
  lemma {:induction false} ReprStrPlain(s: string)
    requires forall k :: 0 <= k < |s| ==> s[k] != '\'' && s[k] != '\\' && s[k] != '\n' && s[k] != '\r' && s[k] != '\t' && !HexEscaped(s[k])
    ensures ReprStr(s) == "'" + s + "'"
  {
    EscapePlain(s);
  }

  lemma {:induction false} EscapePlain(s: string)
    requires forall k :: 0 <= k < |s| ==> s[k] != '\'' && s[k] != '\\' && s[k] != '\n' && s[k] != '\r' && s[k] != '\t' && !HexEscaped(s[k])
    ensures Escape(s, '\'') == s
    decreases |s|
  {
    if |s| > 0 {
      EscapePlain(s[1..]);
      assert [s[0]] + s[1..] == s;
    }
  }

  /** `str(v)`. */
  function Str(v: Value): string
    decreases v, 1
  {
    match v
    case VNone => "None"
    case VBool(b) => if b then "True" else "False"
    case VInt(i) => IntToStr(i)
    case VStr(s) => s
    case VList(xs) =>
      "[" + Join(", ", seq(|xs|, k requires 0 <= k < |xs| => Repr(xs[k]))) + "]"
    case VDict(es) =>
      "{" + Join(", ", seq(|es|, k requires 0 <= k < |es| => ReprStr(es[k].0) + ": " + Repr(es[k].1))) + "}"
  }

  /** `repr(v)`: strings are quoted and escaped, everything else prints as `str`. */
  function Repr(v: Value): string
    decreases v, 2
  {
    if v.VStr? then ReprStr(v.s) else Str(v)
  }

  /** A container's text starts with a bracket, so it is never a bare token. */
  lemma StrOfContainer(v: Value)
    requires v.VList? || v.VDict?
    ensures |Str(v)| > 0 && (Str(v)[0] == '[' || Str(v)[0] == '{')
  {
  }

  /** Python's `==` on these values: `True == 1`, lists element-wise, dicts by keys. */
  predicate PyEq(a: Value, b: Value)
    decreases a
  {
    match a
    case VNone => b == VNone
    case VBool(x) =>
      (b.VBool? && b.b == x) || (b.VInt? && b.i == (if x then 1 else 0))
    case VInt(x) =>
      (b.VInt? && b.i == x) || (b.VBool? && x == (if b.b then 1 else 0))
    case VStr(x) => b == VStr(x)
    case VList(xs) =>
      b.VList? && |b.items| == |xs| && forall k :: 0 <= k < |xs| ==> PyEq(xs[k], b.items[k])
    case VDict(es) =>
      b.VDict? && |b.entries| == |es| &&
      forall k :: 0 <= k < |es| ==>
        exists j :: 0 <= j < |b.entries| && b.entries[j].0 == es[k].0 && PyEq(es[k].1, b.entries[j].1)
  }

  /** Against a str, Python's `==` is plain identity of the text. */
  lemma PyEqStr(a: Value, s: string)
    ensures PyEq(a, VStr(s)) <==> a == VStr(s)
    ensures PyEq(VStr(s), a) <==> a == VStr(s)
  {
  }

  /** Against None, too. */
  lemma PyEqNone(a: Value)
    ensures PyEq(a, VNone) <==> a == VNone
    ensures PyEq(VNone, a) <==> a == VNone
  {
  }

  /** `sub in s` for strings. */
  predicate Contains(s: string, sub: string)
  {
    exists i :: 0 <= i <= |s| && OccursAt(s, sub, i)
  }

  predicate OccursAt(s: string, sub: string, i: int)
  {
    0 <= i && i + |sub| <= |s| && s[i..i + |sub|] == sub
  }

  /** A non-empty sequence is its front followed by its last element. */
  lemma Snoc<T>(s: seq<T>)
    requires |s| > 0
    ensures s == s[..|s| - 1] + [s[|s| - 1]]
  {
  }
}
