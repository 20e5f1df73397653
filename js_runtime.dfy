/// The part of the JavaScript runtime the plugin's logic depends on: the
/// values it handles, `String(v)`, truthiness, `===` on the values that reach
/// a comparison, `trim`, `split`, `join`, `toLowerCase`, `replace` of one
/// character and `parseInt`.
module JsRuntime {

  datatype Option<+T> = None | Some(value: T)

  /** A JavaScript value as the plugin meets it: a property's configured value,
      a frontmatter entry, or an element of an array. Numbers are integers;
      `Obj` is any other object (a YAML mapping), whose contents the plugin
      never inspects. */
  datatype JsValue =
    | Undefined
    | Null
    | Bool(b: bool)
    | Num(n: int)
    | Str(s: string)
    | Arr(items: seq<JsValue>)
    | Obj

  predicate IsPrimitive(v: JsValue) {
    !v.Arr? && !v.Obj?
  }

  /** `a === b`, and the SameValueZero test a `Set` uses. Arrays and objects
      are compared by reference; every array or object that reaches such a
      test in the plugin is its own allocation, so none is identical to
      anything. */
  predicate Identical(a: JsValue, b: JsValue) {
    IsPrimitive(a) && a == b
  }

  /** `Boolean(v)`: `undefined`, `null`, `false`, `0` and `""` are falsy;
      every array, even `[]`, and every object is truthy. */
  predicate Truthy(v: JsValue) {
    match v
    case Undefined => false
    case Null => false
    case Bool(b) => b
    case Num(n) => n != 0
    case Str(s) => s != ""
    case Arr(_) => true
    case Obj => true
  }

  // ---------------------------------------------------------------------
  // Decimal rendering of integers

  function DigitChar(d: int): (c: char)
    requires 0 <= d < 10
    ensures '0' <= c <= '9'
  {
    ('0' as int + d) as char
  }

  function NatToString(n: nat): (r: string)
    ensures |r| >= 1
    ensures forall i :: 0 <= i < |r| ==> '0' <= r[i] <= '9'
    decreases n
  {
    if n < 10 then [DigitChar(n)] else NatToString(n / 10) + [DigitChar(n % 10)]
  }

  /** `String(n)` for an integer `n` */
  function IntToString(n: int): string {
    if n < 0 then "-" + NatToString(-n) else NatToString(n)
  }

  /** `String(v)`. An array renders as its elements joined by `,`. */
  function ToString(v: JsValue): string
    decreases v
  {
    match v
    case Undefined => "undefined"
    case Null => "null"
    case Bool(b) => if b then "true" else "false"
    case Num(n) => IntToString(n)
    case Str(s) => s
    case Arr(items) => JoinElements(items)
    case Obj => "[object Object]"
  }

  /** `items.join(",")`: the string forms of the elements separated by `,`,
      with `null` and `undefined` elements rendered as the empty string */
  function JoinElements(items: seq<JsValue>): string
    decreases items
  {
    if |items| == 0 then ""
    else
      var first := if items[0].Null? || items[0].Undefined? then "" else ToString(items[0]);
      if |items| == 1 then first else first + "," + JoinElements(items[1..])
  }

  // ---------------------------------------------------------------------
  // Whitespace and trim

  /** The characters `String.prototype.trim` and the regular-expression class
      `\s` treat as white space: WhiteSpace and LineTerminator of ECMA-262. */
  predicate IsWhitespace(c: char) {
    c == '\t' || c == '\n' || c == '\U{000B}' || c == '\U{000C}' || c == '\r' || c == ' ' ||
    c == '\U{00A0}' || c == '\U{1680}' || ('\U{2000}' <= c <= '\U{200A}') ||
    c == '\U{2028}' || c == '\U{2029}' || c == '\U{202F}' || c == '\U{205F}' ||
    c == '\U{3000}' || c == '\U{FEFF}'
  }

  /** Neither starts nor ends with white space */
  predicate IsTrimmed(s: string) {
    s == [] || (!IsWhitespace(s[0]) && !IsWhitespace(s[|s| - 1]))
  }

  predicate AllWhitespace(w: string) {
    forall i :: 0 <= i < |w| ==> IsWhitespace(w[i])
  }

  /** `s.trimStart()` */
  function TrimStart(s: string): (r: string)
    ensures |r| <= |s|
    ensures r == [] || !IsWhitespace(r[0])
  {
    if |s| > 0 && IsWhitespace(s[0]) then TrimStart(s[1..]) else s
  }

  /** `s.trimEnd()` */
  function TrimEnd(s: string): (r: string)
    ensures |r| <= |s|
    ensures r == [] || !IsWhitespace(r[|r| - 1])
  {
    if |s| > 0 && IsWhitespace(s[|s| - 1]) then TrimEnd(s[..|s| - 1]) else s
  }

  /** `s.trim()` */
  function Trim(s: string): (r: string)
    ensures IsTrimmed(r)
    ensures |r| <= |s|
  {
    var t := TrimStart(s);
    TrimEndIsPrefix(t);
    TrimEnd(t)
  }

  /** `trimStart` removes a prefix of white space and nothing else */
  lemma {:induction false} TrimStartIsSuffix(s: string)
    ensures TrimStart(s) == s[|s| - |TrimStart(s)|..]
    ensures AllWhitespace(s[..|s| - |TrimStart(s)|])
  {
    if |s| > 0 && IsWhitespace(s[0]) {
      TrimStartIsSuffix(s[1..]);
      var k := |s| - |TrimStart(s)|;
      assert s[..k] == [s[0]] + s[1..][..k - 1];
    }
  }

  /** `trimEnd` removes a suffix of white space and nothing else */
  lemma {:induction false} TrimEndIsPrefix(s: string)
    ensures TrimEnd(s) == s[..|TrimEnd(s)|]
    ensures AllWhitespace(s[|TrimEnd(s)|..])
  {
    if |s| > 0 && IsWhitespace(s[|s| - 1]) {
      var p := s[..|s| - 1];
      TrimEndIsPrefix(p);
      var k := |TrimEnd(s)|;
      assert s[k..] == p[k..] + [s[|s| - 1]];
    }
  }

  /** `trim` keeps an infix of its argument: the part between the leading
      and the trailing white space */
  lemma TrimIsInfix(s: string)
    ensures |s| - |TrimStart(s)| + |Trim(s)| <= |s|
    ensures Trim(s) == s[|s| - |TrimStart(s)|..|s| - |TrimStart(s)| + |Trim(s)|]
  {
    TrimStartIsSuffix(s);
    TrimEndIsPrefix(TrimStart(s));
  }

  lemma TrimmedIsFixpoint(s: string)
    requires IsTrimmed(s)
    ensures Trim(s) == s
  {
  }

  lemma TrimIdempotent(s: string)
    ensures Trim(Trim(s)) == Trim(s)
  {
    TrimmedIsFixpoint(Trim(s));
  }

  /** Leading white space does not change the result of `trim` */
  lemma {:induction false} TrimSkipsLeadingWhitespace(w: string, s: string)
    requires AllWhitespace(w)
    ensures Trim(w + s) == Trim(s)
  {
    if |w| > 0 {
      assert (w + s)[1..] == w[1..] + s;
      TrimSkipsLeadingWhitespace(w[1..], s);
    } else {
      assert w + s == s;
    }
  }

  lemma {:induction false} TrimStartOfWhitespace(w: string)
    requires AllWhitespace(w)
    ensures TrimStart(w) == ""
  {
    if |w| > 0 {
      assert AllWhitespace(w[1..]) by {
        forall i | 0 <= i < |w[1..]| ensures IsWhitespace(w[1..][i]) {
          assert w[1..][i] == w[i + 1];
        }
      }
      TrimStartOfWhitespace(w[1..]);
    }
  }

  /** Text after the first non-blank character is kept by `trimStart` */
  lemma {:induction false} TrimStartAppend(s: string, w: string)
    requires TrimStart(s) != ""
    ensures TrimStart(s + w) == TrimStart(s) + w
  {
    assert (s + w)[0] == s[0];
    if IsWhitespace(s[0]) {
      assert (s + w)[1..] == s[1..] + w;
      TrimStartAppend(s[1..], w);
    }
  }

  /** Trailing white space does not change the result of `trimEnd` */
  lemma {:induction false} TrimEndSkipsTrailingWhitespace(t: string, w: string)
    requires AllWhitespace(w)
    ensures TrimEnd(t + w) == TrimEnd(t)
    decreases |w|
  {
    if |w| == 0 {
      assert t + w == t;
    } else {
      var u := t + w;
      assert u[|u| - 1] == w[|w| - 1];
      assert u[..|u| - 1] == t + w[..|w| - 1];
      TrimEndSkipsTrailingWhitespace(t, w[..|w| - 1]);
    }
  }

  /** Trailing white space does not change the result of `trim` */
  lemma TrimSkipsTrailingWhitespace(s: string, w: string)
    requires AllWhitespace(w)
    ensures Trim(s + w) == Trim(s)
  {
    if TrimStart(s) == "" {
      TrimStartIsSuffix(s);
      assert AllWhitespace(s + w) by {
        forall i | 0 <= i < |s + w| ensures IsWhitespace((s + w)[i]) {
          if i < |s| {
            assert s[..|s|][i] == s[i];
          } else {
            assert (s + w)[i] == w[i - |s|];
          }
        }
      }
      TrimStartOfWhitespace(s + w);
    } else {
      TrimStartAppend(s, w);
      TrimEndSkipsTrailingWhitespace(TrimStart(s), w);
    }
  }

  /** White space on either side does not change the result of `trim` */
  lemma TrimSkipsPadding(u: string, s: string, w: string)
    requires AllWhitespace(u) && AllWhitespace(w)
    ensures Trim(u + s + w) == Trim(s)
  {
    assert u + s + w == u + (s + w);
    TrimSkipsLeadingWhitespace(u, s + w);
    TrimSkipsTrailingWhitespace(s, w);
  }

  // ---------------------------------------------------------------------
  // Case mapping

  function LowerChar(c: char): char {
    if 'A' <= c <= 'Z' then (c as int + 32) as char else c
  }

  /** `s.toLowerCase()` on ASCII letters; other characters are kept */
  function ToLower(s: string): (r: string)
    ensures |r| == |s|
    ensures forall i :: 0 <= i < |s| ==> r[i] == LowerChar(s[i])
  {
    seq(|s|, i requires 0 <= i < |s| => LowerChar(s[i]))
  }

  /** Lower-casing keeps white space and non-white space apart */
  lemma LowerCharWhitespace(c: char)
    ensures IsWhitespace(LowerChar(c)) <==> IsWhitespace(c)
  {
  }

  lemma {:induction false} TrimStartOfLower(s: string)
    ensures TrimStart(ToLower(s)) == ToLower(TrimStart(s))
  {
    if |s| > 0 {
      LowerCharWhitespace(s[0]);
      if IsWhitespace(s[0]) {
        assert ToLower(s)[1..] == ToLower(s[1..]);
        TrimStartOfLower(s[1..]);
      }
    }
  }

  lemma {:induction false} TrimEndOfLower(s: string)
    ensures TrimEnd(ToLower(s)) == ToLower(TrimEnd(s))
  {
    if |s| > 0 {
      LowerCharWhitespace(s[|s| - 1]);
      if IsWhitespace(s[|s| - 1]) {
        assert ToLower(s)[..|s| - 1] == ToLower(s[..|s| - 1]);
        TrimEndOfLower(s[..|s| - 1]);
      }
    }
  }

  /** Lower-casing and trimming commute */
  lemma TrimOfLower(s: string)
    ensures Trim(ToLower(s)) == ToLower(Trim(s))
  {
    TrimStartOfLower(s);
    TrimEndOfLower(TrimStart(s));
  }

  // ---------------------------------------------------------------------
  // split and join

  /** `s.split(sep)` for a one-character separator: the maximal pieces
      between separators, in order; the empty string gives `[""]`. */
  function Split(s: string, sep: char): (pieces: seq<string>)
    ensures |pieces| >= 1
    ensures forall i :: 0 <= i < |pieces| ==> sep !in pieces[i]
  {
    if |s| == 0 then [""]
    else if s[0] == sep then [""] + Split(s[1..], sep)
    else
      var rest := Split(s[1..], sep);
      [[s[0]] + rest[0]] + rest[1..]
  }

  /** `xs.join(sep)` */
  function Join(xs: seq<string>, sep: string): string {
    if |xs| == 0 then ""
    else if |xs| == 1 then xs[0]
    else xs[0] + sep + Join(xs[1..], sep)
  }

  lemma JoinCons(c: char, x: string, ys: seq<string>, sep: string)
    ensures Join([[c] + x] + ys, sep) == [c] + Join([x] + ys, sep)
  {
    if |ys| > 0 {
      assert ([[c] + x] + ys)[1..] == ys;
      assert ([x] + ys)[1..] == ys;
    }
  }

  /** Joining the pieces of a split with the separator restores the string */
  lemma {:induction false} JoinSplit(s: string, sep: char)
    ensures Join(Split(s, sep), [sep]) == s
  {
    if |s| == 0 {
    } else if s[0] == sep {
      var rest := Split(s[1..], sep);
      JoinSplit(s[1..], sep);
      assert ([""] + rest)[1..] == rest;
      assert s == [sep] + s[1..];
    } else {
      var rest := Split(s[1..], sep);
      JoinSplit(s[1..], sep);
      assert rest == [rest[0]] + rest[1..];
      JoinCons(s[0], rest[0], rest[1..], [sep]);
      assert s == [s[0]] + s[1..];
    }
  }

  lemma {:induction false} SplitWithoutSeparator(s: string, sep: char)
    requires sep !in s
    ensures Split(s, sep) == [s]
  {
    if |s| > 0 {
      SplitWithoutSeparator(s[1..], sep);
      assert s == [s[0]] + s[1..];
    }
  }

  /** A separator splits the string into the pieces of its two sides */
  lemma {:induction false} SplitAtSeparator(a: string, b: string, sep: char)
    ensures Split(a + [sep] + b, sep) == Split(a, sep) + Split(b, sep)
  {
    if |a| == 0 {
      assert a + [sep] + b == [sep] + b;
      assert ([sep] + b)[1..] == b;
    } else {
      var s := a + [sep] + b;
      assert s[0] == a[0];
      assert s[1..] == a[1..] + [sep] + b;
      SplitAtSeparator(a[1..], b, sep);
      if a[0] != sep {
        var ra := Split(a[1..], sep);
        var rest := Split(s[1..], sep);
        assert rest == ra + Split(b, sep);
        assert rest[0] == ra[0];
        assert rest[1..] == ra[1..] + Split(b, sep);
      }
    }
  }

  /** Splitting a join of separator-free strings gives them back */
  lemma {:induction false} SplitJoin(xs: seq<string>, sep: char)
    requires |xs| >= 1
    requires forall i :: 0 <= i < |xs| ==> sep !in xs[i]
    ensures Split(Join(xs, [sep]), sep) == xs
  {
    if |xs| == 1 {
      SplitWithoutSeparator(xs[0], sep);
    } else {
      SplitWithoutSeparator(xs[0], sep);
      SplitJoin(xs[1..], sep);
      SplitAtSeparator(xs[0], Join(xs[1..], [sep]), sep);
      assert xs == [xs[0]] + xs[1..];
    }
  }

  /** `s.indexOf(c)`: the first position of `c`, or -1 */
  function IndexOf(s: string, c: char): (r: int)
    ensures -1 <= r
    ensures r == -1 <==> c !in s
    ensures 0 <= r ==> r < |s| && s[r] == c && c !in s[..r]
  {
    if |s| == 0 then -1
    else if s[0] == c then 0
    else
      var k := IndexOf(s[1..], c);
      assert s == [s[0]] + s[1..];
      if k == -1 then -1
      else
        assert s[..k + 1] == [s[0]] + s[1..][..k];
        k + 1
  }

  /** `s.replace(c, '')` with a one-character string pattern: removes the
      first occurrence of `c`, wherever it is */
  function RemoveFirst(s: string, c: char): (r: string)
    ensures c !in s ==> r == s
    ensures c in s ==> |r| == |s| - 1
  {
    if |s| == 0 then s
    else if s[0] == c then s[1..]
    else
      assert s == [s[0]] + s[1..];
      [s[0]] + RemoveFirst(s[1..], c)
  }

  // ---------------------------------------------------------------------
  // parseInt

  /** The value of a character as a digit in radix 36; 36 for a non-digit */
  function DigitValue(c: char): (d: int)
    ensures 0 <= d <= 36
  {
    if '0' <= c <= '9' then c as int - '0' as int
    else if 'a' <= c <= 'z' then c as int - 'a' as int + 10
    else if 'A' <= c <= 'Z' then c as int - 'A' as int + 10
    else 36
  }

  /** The longest prefix of `s` made of digits of the radix */
  function DigitPrefix(s: string, radix: int): (r: string)
    ensures |r| <= |s| && r == s[..|r|]
  {
    if |s| > 0 && DigitValue(s[0]) < radix then [s[0]] + DigitPrefix(s[1..], radix) else ""
  }

  function DigitsValue(ds: string, radix: int): int {
    if |ds| == 0 then 0 else DigitsValue(ds[..|ds| - 1], radix) * radix + DigitValue(ds[|ds| - 1])
  }

  /** `parseInt(s)` without a radix; `None` stands for `NaN`. Leading white
      space is skipped, a sign is read, a `0x`/`0X` prefix selects radix 16,
      and the longest run of digits that follows is converted; anything after
      it is ignored. */
  function ParseInt(s: string): Option<int> {
    var t := TrimStart(s);
    var sign := if |t| > 0 && t[0] == '-' then -1 else 1;
    var u := if |t| > 0 && (t[0] == '-' || t[0] == '+') then t[1..] else t;
    var hex := |u| >= 2 && u[0] == '0' && (u[1] == 'x' || u[1] == 'X');
    var radix := if hex then 16 else 10;
    var w := if hex then u[2..] else u;
    var digits := DigitPrefix(w, radix);
    if |digits| == 0 then None else Some(sign * DigitsValue(digits, radix))
  }

  lemma {:induction false} NatToStringFacts(n: nat)
    ensures DigitsValue(NatToString(n), 10) == n
    ensures n >= 1 ==> NatToString(n)[0] != '0'
    ensures n == 0 ==> NatToString(n) == "0"
    decreases n
  {
    if n >= 10 {
      NatToStringFacts(n / 10);
      var r := NatToString(n);
      assert r[..|r| - 1] == NatToString(n / 10);
    }
  }

  lemma {:induction false} DigitPrefixOfDigits(s: string)
    requires forall i :: 0 <= i < |s| ==> '0' <= s[i] <= '9'
    ensures DigitPrefix(s, 10) == s
  {
    if |s| > 0 {
      DigitPrefixOfDigits(s[1..]);
      assert s == [s[0]] + s[1..];
    }
  }

  /** `parseInt(String(n))` gives `n` back for every natural number */
  lemma ParseIntOfNatToString(n: nat)
    ensures ParseInt(NatToString(n)) == Some(n)
  {
    var s := NatToString(n);
    NatToStringFacts(n);
    DigitPrefixOfDigits(s);
    assert TrimStart(s) == s;
  }
}
