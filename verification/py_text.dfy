/** Python string semantics the slip-map code relies on: str.isspace,
    str.strip, str.replace of one character, str.join, int() of a decimal
    string, str() of an int, os.path.splitext, the case mappings used when
    matching file extensions and logging-level names, and the shape of a
    getopt result. */
module PyText {

  /** Python's str.isspace() for one code point (bidirectional class WS, B
      or S, or general category Zs). */
  predicate IsSpace(c: char) {
    c == ' ' || c == '\t' || c == '\n' || c == '\r' ||
    c == '\U{000B}' || c == '\U{000C}' ||
    c == '\U{001C}' || c == '\U{001D}' || c == '\U{001E}' || c == '\U{001F}' ||
    c == '\U{0085}' || c == '\U{00A0}' || c == '\U{1680}' ||
    ('\U{2000}' <= c <= '\U{200A}') ||
    c == '\U{2028}' || c == '\U{2029}' || c == '\U{202F}' || c == '\U{205F}' ||
    c == '\U{3000}'
  }

  /** str.lstrip(): drop leading whitespace. */
  function LStrip(s: string): (r: string)
    ensures |r| <= |s| && r == s[|s| - |r|..]
    ensures r != [] ==> !IsSpace(r[0])
    ensures forall i :: 0 <= i < |s| - |r| ==> IsSpace(s[i])
  {
    if s != [] && IsSpace(s[0]) then LStrip(s[1..]) else s
  }

  /** str.rstrip(): drop trailing whitespace. */
  function RStrip(s: string): (r: string)
    ensures |r| <= |s| && r == s[..|r|]
    ensures r != [] ==> !IsSpace(r[|r| - 1])
    ensures forall i :: |r| <= i < |s| ==> IsSpace(s[i])
  {
    if s != [] && IsSpace(s[|s| - 1]) then RStrip(s[..|s| - 1]) else s
  }

  /** str.strip(): the longest infix with no whitespace at either end. */
  function Strip(s: string): (r: string)
    ensures r == [] || (!IsSpace(r[0]) && !IsSpace(r[|r| - 1]))
  {
    RStrip(LStrip(s))
  }

  /** s.replace(c, rep) for a single-character pattern c. */
  function ReplaceChar(s: string, c: char, rep: string): (r: string)
  {
    if s == [] then []
    else (if s[0] == c then rep else [s[0]]) + ReplaceChar(s[1..], c, rep)
  }

  /** Number of occurrences of character c in s. */
  function Count(s: string, c: char): nat
  {
    if s == [] then 0 else (if s[0] == c then 1 else 0) + Count(s[1..], c)
  }

  lemma {:induction false} CountAppend(a: string, b: string, c: char)
    ensures Count(a + b, c) == Count(a, c) + Count(b, c)
  {
    if a == [] {
      assert a + b == b;
    } else {
      assert (a + b)[1..] == a[1..] + b;
      CountAppend(a[1..], b, c);
    }
  }

  /** Replacing c by a text without d keeps the number of d's, for any
      other character d. */
  lemma {:induction false} ReplaceCharKeepsCount(s: string, c: char, rep: string, d: char)
    requires c != d && Count(rep, d) == 0
    ensures Count(ReplaceChar(s, c, rep), d) == Count(s, d)
  {
    if s != [] {
      var tail := ReplaceChar(s[1..], c, rep);
      ReplaceCharKeepsCount(s[1..], c, rep, d);
      if s[0] == c {
        assert ReplaceChar(s, c, rep) == rep + tail;
        CountAppend(rep, tail, d);
      } else {
        assert ReplaceChar(s, c, rep) == [s[0]] + tail;
        CountAppend([s[0]], tail, d);
        assert [s[0]][1..] == [];
      }
    }
  }

  /** Replacing c by a text holding exactly one c keeps the number of
      c's. */
  lemma {:induction false} ReplaceCharOneForOne(s: string, c: char, rep: string)
    requires Count(rep, c) == 1
    ensures Count(ReplaceChar(s, c, rep), c) == Count(s, c)
  {
    if s != [] {
      var tail := ReplaceChar(s[1..], c, rep);
      ReplaceCharOneForOne(s[1..], c, rep);
      if s[0] == c {
        assert ReplaceChar(s, c, rep) == rep + tail;
        CountAppend(rep, tail, c);
      } else {
        assert ReplaceChar(s, c, rep) == [s[0]] + tail;
        CountAppend([s[0]], tail, c);
        assert [s[0]][1..] == [];
      }
    }
  }

  /** Replacing c by a text that does not contain c leaves no c behind. */
  lemma ReplaceCharRemoves(s: string, c: char, rep: string)
    requires c !in rep
    ensures c !in ReplaceChar(s, c, rep)
  {
    if s != [] {
      ReplaceCharRemoves(s[1..], c, rep);
    }
  }

  lemma {:induction false} ReplaceCharAppend(a: string, b: string, c: char, rep: string)
    ensures ReplaceChar(a + b, c, rep) == ReplaceChar(a, c, rep) + ReplaceChar(b, c, rep)
  {
    if a == [] {
      assert a + b == b;
    } else {
      assert (a + b)[1..] == a[1..] + b;
      ReplaceCharAppend(a[1..], b, c, rep);
    }
  }

  /** Removing a character that does not occur changes nothing. */
  lemma ReplaceCharAbsent(s: string, c: char, rep: string)
    requires c !in s
    ensures ReplaceChar(s, c, rep) == s
  {
    if s != [] {
      ReplaceCharAbsent(s[1..], c, rep);
    }
  }

  // ---------------------------------------------------------------------
  // str(int) and int(str)
  // ---------------------------------------------------------------------

  predicate IsDigit(c: char) { '0' <= c <= '9' }

  function DigitValue(c: char): nat
    requires IsDigit(c)
  {
    (c as int - '0' as int) as nat
  }

  function DigitChar(d: nat): (c: char)
    requires d < 10
    ensures IsDigit(c) && DigitValue(c) == d
  {
    ('0' as int + d) as char
  }

  /** The decimal digits of n, most significant first, no leading zero. */
  function NatToString(n: nat): (r: string)
    ensures r != [] && forall i :: 0 <= i < |r| ==> IsDigit(r[i])
    decreases n
  {
    if n < 10 then [DigitChar(n)] else NatToString(n / 10) + [DigitChar(n % 10)]
  }

  /** str(n) / '%d' % n. */
  function IntToString(n: int): (r: string)
    ensures r != []
    ensures forall i :: 0 <= i < |r| ==> IsDigit(r[i]) || r[i] == '-'
  {
    if n < 0 then "-" + NatToString(-n) else NatToString(n)
  }

  /** Value of a string of decimal digits. */
  function DigitsValue(s: string): nat
    requires forall i :: 0 <= i < |s| ==> IsDigit(s[i])
  {
    if s == [] then 0 else DigitsValue(s[..|s| - 1]) * 10 + DigitValue(s[|s| - 1])
  }

  lemma {:induction false} NatToStringValue(n: nat)
    ensures DigitsValue(NatToString(n)) == n
    decreases n
  {
    var r := NatToString(n);
    if n >= 10 {
      NatToStringValue(n / 10);
      assert r[..|r| - 1] == NatToString(n / 10);
    }
  }

  /** The digits-and-underscores body int() accepts: it starts and ends
      with a digit and never has two underscores in a row. */
  predicate IsDigitBody(s: string) {
    s != [] && IsDigit(s[0]) && IsDigit(s[|s| - 1]) &&
    (forall i :: 0 <= i < |s| ==> IsDigit(s[i]) || s[i] == '_') &&
    (forall i :: 0 <= i < |s| - 1 ==> !(s[i] == '_' && s[i + 1] == '_'))
  }

  function DropUnderscores(s: string): (r: string)
    requires forall i :: 0 <= i < |s| ==> IsDigit(s[i]) || s[i] == '_'
    ensures forall i :: 0 <= i < |r| ==> IsDigit(r[i])
  {
    if s == [] then []
    else (if s[0] == '_' then [] else [s[0]]) + DropUnderscores(s[1..])
  }

  lemma DropUnderscoresNone(s: string)
    requires forall i :: 0 <= i < |s| ==> IsDigit(s[i])
    ensures DropUnderscores(s) == s
  {
    if s != [] {
      DropUnderscoresNone(s[1..]);
    }
  }

  /** Python's int(s) on a str, base 10: surrounding whitespace, an
      optional sign, then the digit body; None where int() raises
      ValueError. */
  function ParseInt(s: string): (r: Option<int>)
    ensures r.Some? ==> Strip(s) != []
  {
    var t := Strip(s);
    if t == [] then None
    else if t[0] == '-' then
      match ParseUnsigned(t[1..])
      case Some(v) => Some(-(v as int))
      case None => None
    else if t[0] == '+' then
      match ParseUnsigned(t[1..])
      case Some(v) => Some(v as int)
      case None => None
    else
      match ParseUnsigned(t)
      case Some(v) => Some(v as int)
      case None => None
  }

  /** The value of a digit body, or None where it is malformed. */
  function ParseUnsigned(body: string): (r: Option<nat>)
    ensures r.Some? <==> IsDigitBody(body)
  {
    if IsDigitBody(body) then Some(DigitsValue(DropUnderscores(body))) else None
  }

  /** A string with no whitespace at either end is its own strip. */
  lemma {:induction false} StripUnchanged(s: string)
    requires s != [] && !IsSpace(s[0]) && !IsSpace(s[|s| - 1])
    ensures Strip(s) == s
  {
    assert LStrip(s) == s;
  }

  lemma {:induction false} DigitsAreBody(d: string)
    requires d != [] && forall i :: 0 <= i < |d| ==> IsDigit(d[i])
    ensures IsDigitBody(d) && DropUnderscores(d) == d
  {
    DropUnderscoresNone(d);
  }

  /** ParseInt of an unsigned digit string with nothing around it. */
  lemma {:induction false} ParseIntDigits(d: string)
    requires d != [] && forall i :: 0 <= i < |d| ==> IsDigit(d[i])
    ensures ParseInt(d) == Some(DigitsValue(d))
  {
    StripUnchanged(d);
    DigitsAreBody(d);
    assert d[0] != '-' && d[0] != '+';
  }

  /** ParseInt of a digit string after a minus sign. */
  lemma {:induction false} ParseIntNegDigits(d: string)
    requires d != [] && forall i :: 0 <= i < |d| ==> IsDigit(d[i])
    ensures ParseInt("-" + d) == Some(-(DigitsValue(d) as int))
  {
    var s := "-" + d;
    assert s[|s| - 1] == d[|d| - 1];
    StripUnchanged(s);
    assert s[1..] == d;
    DigitsAreBody(d);
  }

  /** int(str(n)) == n for every integer n. */
  lemma ParseIntToString(n: int)
    ensures ParseInt(IntToString(n)) == Some(n)
  {
    var m: nat := if n < 0 then -n else n;
    NatToStringValue(m);
    if n < 0 {
      ParseIntNegDigits(NatToString(m));
    } else {
      ParseIntDigits(NatToString(m));
    }
  }

  // ---------------------------------------------------------------------
  // os.path.splitext and case mapping
  // ---------------------------------------------------------------------

  /** s.rfind(c): the last index of c in s, or -1. */
  function RFind(s: string, c: char): (r: int)
    ensures -1 <= r < |s|
    ensures r >= 0 ==> s[r] == c
    ensures forall i :: r < i < |s| ==> s[i] != c
  {
    if s == [] then -1
    else if s[|s| - 1] == c then |s| - 1
    else RFind(s[..|s| - 1], c)
  }

  /** True when p has a character other than '.' in p[from..upto]. */
  predicate HasNonDot(p: string, from: nat, upto: nat)
    requires from <= upto <= |p|
  {
    exists i :: from <= i < upto && p[i] != '.'
  }

  /** posixpath.splitext(p): the extension is the part from the last dot of
      the last path component, unless everything before that dot in the
      component is dots. */
  function SplitExt(p: string): (r: (string, string))
    ensures r.0 + r.1 == p
    ensures r.1 == [] || (r.1[0] == '.' && '/' !in r.1 && '.' !in r.1[1..])
  {
    var sep := RFind(p, '/');
    var dot := RFind(p, '.');
    if dot > sep && HasNonDot(p, sep + 1, dot) then
      assert p[..dot] + p[dot..] == p;
      (p[..dot], p[dot..])
    else (p, [])
  }

  /** str.lower() on the ASCII letters; other characters are kept. */
  function Lower(s: string): (r: string)
    ensures |r| == |s|
    ensures forall i :: 0 <= i < |s| ==> r[i] == (if 'A' <= s[i] <= 'Z' then (s[i] as int + 32) as char else s[i])
  {
    if s == [] then []
    else [if 'A' <= s[0] <= 'Z' then (s[0] as int + 32) as char else s[0]] + Lower(s[1..])
  }

  /** The case mapping str.upper() applies to one character, restricted to
      the mappings whose result is a single ASCII capital: a-z, dotless i
      and long s. */
  function UpperChar(c: char): char {
    if 'a' <= c <= 'z' then (c as int - 32) as char
    else if c == '\U{0131}' then 'I'
    else if c == '\U{017F}' then 'S'
    else c
  }

  function Upper(s: string): (r: string)
    ensures |r| == |s|
    ensures forall i :: 0 <= i < |s| ==> r[i] == UpperChar(s[i])
  {
    if s == [] then [] else [UpperChar(s[0])] + Upper(s[1..])
  }

  /** s.split(c, 1) when c occurs in s: the text before the first c and
      the text after it; None when c does not occur. */
  function SplitOnce(s: string, c: char): (r: Option<(string, string)>)
    ensures r.None? <==> c !in s
    ensures r.Some? ==> r.value.0 + [c] + r.value.1 == s && c !in r.value.0
  {
    if s == [] then None
    else if s[0] == c then Some(([], s[1..]))
    else match SplitOnce(s[1..], c)
      case None => None
      case Some((a, b)) => Some(([s[0]] + a, b))
  }

  /** Splitting a + c + b at c gives back a and b when a has no c. */
  lemma {:induction false} SplitOnceJoin(a: string, c: char, b: string)
    requires c !in a
    ensures SplitOnce(a + [c] + b, c) == Some((a, b))
  {
    var s := a + [c] + b;
    if a == [] {
      assert s[0] == c && s[1..] == b;
    } else {
      assert s[0] == a[0] && s[0] != c;
      assert s[1..] == a[1..] + [c] + b;
      SplitOnceJoin(a[1..], c, b);
      assert [a[0]] + a[1..] == a;
    }
  }

  /** sep.join(parts). */
  function Join(sep: string, parts: seq<string>): string
    decreases |parts|
  {
    if parts == [] then ""
    else if |parts| == 1 then parts[0]
    else parts[0] + sep + Join(sep, parts[1..])
  }

  /** Joining one more part adds a separator only when parts came before. */
  lemma {:induction false} JoinSnoc(sep: string, parts: seq<string>, last: string)
    ensures Join(sep, parts + [last]) ==
      (if parts == [] then last else Join(sep, parts) + sep + last)
    decreases |parts|
  {
    if |parts| > 1 {
      assert (parts + [last])[1..] == parts[1..] + [last];
      JoinSnoc(sep, parts[1..], last);
    } else if |parts| == 1 {
      assert (parts + [last])[1..] == [last];
    }
  }

  /** The result of getopt.getopt(): a GetoptError, or the recognised
      (option, value) pairs in command-line order and the positional
      arguments. */
  datatype Getopt = GetoptError | Parsed(opts: seq<(string, string)>, args: seq<string>)

  datatype Option<+T> = None | Some(value: T)
}
