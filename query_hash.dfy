/** Query keys and their hash. The engine identifies a query by
    `JSON.stringify(queryKey)`; this module models the fragment of that
    serializer (ECMA-262, JSON.stringify and its QuoteJSONString step) that
    covers strings, integers and arrays, and proves that it is injective, so
    two keys share a cache entry exactly when they are equal. */
module QueryHash {

  /** A key is built from strings, numbers and arrays. Numbers are the safe
      integers, those of magnitude at most 2^53 - 1: a JavaScript number
      holds every one of them exactly, and Number::toString prints its
      decimal digits. */
  datatype QueryKey = Str(s: string) | Int(n: SafeInt) | Arr(items: seq<QueryKey>)

  type SafeInt = n: int | -0x1F_FFFF_FFFF_FFFF <= n <= 0x1F_FFFF_FFFF_FFFF

  predicate IsDigit(c: char) { '0' <= c <= '9' }

  function Digit(d: nat): (c: char)
    requires d < 10
    ensures IsDigit(c)
  {
    ('0' as int + d) as char
  }

  /** Decimal digits of a natural number, most significant first. */
  function NatDigits(n: nat): (r: string)
    ensures |r| > 0
    ensures AllDigits(r)
    decreases n
  {
    if n < 10 then [Digit(n)]
    else
      var d := Digit(n % 10);
      AllDigitsAppend(NatDigits(n / 10), d);
      NatDigits(n / 10) + [d]
  }

  /** Every character of the string is a decimal digit. */
  predicate AllDigits(s: string)
  {
    s == [] || (IsDigit(s[0]) && AllDigits(s[1..]))
  }

  lemma {:induction false} AllDigitsAppend(s: string, c: char)
    requires AllDigits(s) && IsDigit(c)
    ensures AllDigits(s + [c])
  {
    if s != [] {
      assert (s + [c])[1..] == s[1..] + [c];
      AllDigitsAppend(s[1..], c);
    }
  }

  /** Number::toString of a safe integer: a minus sign, then the digits. */
  function NumberString(n: int): string
  {
    if n < 0 then ['-'] + NatDigits(-n) else NatDigits(n)
  }

  /** Lower-case hexadecimal digit, as UnicodeEscape writes it. */
  function HexDigit(d: nat): char
    requires d < 16
  {
    if d < 10 then ('0' as int + d) as char else ('a' as int + (d - 10)) as char
  }

  /** QuoteJSONString for one code point: the two-character escapes, a
      `\u00hh` escape for the other control characters, else the character. */
  function EscapeChar(c: char): string
  {
    if c == '"' then ['\\', '"']
    else if c == '\\' then ['\\', '\\']
    else if c as int == 0x08 then ['\\', 'b']
    else if c as int == 0x09 then ['\\', 't']
    else if c as int == 0x0A then ['\\', 'n']
    else if c as int == 0x0C then ['\\', 'f']
    else if c as int == 0x0D then ['\\', 'r']
    else if c as int < 0x20 then ['\\', 'u', '0', '0', HexDigit(c as int / 16), HexDigit(c as int % 16)]
    else [c]
  }

  function Escape(s: string): string
  {
    if s == [] then [] else EscapeChar(s[0]) + Escape(s[1..])
  }

  /** The hash of a key: `JSON.stringify(queryKey)` on this fragment. */
  function Hash(k: QueryKey): string
  {
    match k
    case Str(s) => ['"'] + Escape(s) + ['"']
    case Int(n) => NumberString(n)
    case Arr(items) => ['['] + Join(items) + [']']
  }

  /** The array elements, separated by commas. */
  function Join(ks: seq<QueryKey>): string
  {
    if ks == [] then []
    else if |ks| == 1 then Hash(ks[0])
    else Hash(ks[0]) + ([','] + Join(ks[1..]))
  }

  /** What may follow a key inside an enclosing array: nothing, a comma or
      the closing bracket. */
  predicate Delimited(r: string)
  {
    r == [] || r[0] == ',' || r[0] == ']'
  }

  lemma EscapeCharShape(c: char)
    ensures |EscapeChar(c)| > 0 && EscapeChar(c)[0] != '"'
  {
  }

  /** No escaped character is a proper prefix of another one, and different
      characters escape differently. */
  lemma EscapeCharPrefixFree(a: char, b: char, x: string, y: string)
    requires EscapeChar(a) + x == EscapeChar(b) + y
    ensures a == b && x == y
  {
    var ea, eb := EscapeChar(a), EscapeChar(b);
    assert (ea + x)[0] == ea[0] && (eb + y)[0] == eb[0];
    if |ea| > 1 && |eb| > 1 {
      assert (ea + x)[1] == ea[1] && (eb + y)[1] == eb[1];
      if |ea| == 6 && |eb| == 6 {
        assert (ea + x)[4] == ea[4] && (eb + y)[4] == eb[4];
        assert (ea + x)[5] == ea[5] && (eb + y)[5] == eb[5];
        assert a as int / 16 == b as int / 16;
      }
    }
    assert |ea| == |eb|;
    assert ea == (ea + x)[..|ea|] && eb == (eb + y)[..|eb|];
    assert x == (ea + x)[|ea|..] && y == (eb + y)[|eb|..];
  }

  /** Two concatenations with equally long first parts split the same way. */
  lemma SplitEqual<T>(a: seq<T>, x: seq<T>, b: seq<T>, y: seq<T>)
    requires a + x == b + y && |a| == |b|
    ensures a == b && x == y
  {
    assert a == (a + x)[..|a|] && b == (b + y)[..|b|];
    assert x == (a + x)[|a|..] && y == (b + y)[|b|..];
  }

  /** How an escaped string followed by its closing quote begins: with the
      quote exactly when the string is empty. */
  lemma EscapeStart(s: string, r: string)
    ensures s == [] ==> Escape(s) + (['"'] + r) == ['"'] + r
    ensures s != [] ==> Escape(s) + (['"'] + r) == EscapeChar(s[0]) + (Escape(s[1..]) + (['"'] + r))
    ensures (Escape(s) + (['"'] + r))[0] == '"' <==> s == []
  {
    if s != [] {
      EscapeCharShape(s[0]);
      AppendFront(EscapeChar(s[0]), Escape(s[1..]), ['"'] + r);
    }
  }

  /** The escaped body of a string, up to its closing quote, splits uniquely. */
  lemma {:induction false} EscapeInjective(s1: string, s2: string, r1: string, r2: string)
    requires Escape(s1) + (['"'] + r1) == Escape(s2) + (['"'] + r2)
    ensures s1 == s2 && r1 == r2
  {
    EscapeStart(s1, r1);
    EscapeStart(s2, r2);
    if s1 == [] && s2 == [] {
      SplitEqual(['"'], r1, ['"'], r2);
    } else {
      var t1, t2 := Escape(s1[1..]) + (['"'] + r1), Escape(s2[1..]) + (['"'] + r2);
      EscapeCharPrefixFree(s1[0], s2[0], t1, t2);
      EscapeInjective(s1[1..], s2[1..], r1, r2);
      assert s1 == [s1[0]] + s1[1..] && s2 == [s2[0]] + s2[1..];
    }
  }

  lemma {:induction false} NatDigitsInjective(a: nat, b: nat)
    requires NatDigits(a) == NatDigits(b)
    ensures a == b
    decreases a
  {
    if a >= 10 && b >= 10 {
      var da, db := NatDigits(a), NatDigits(b);
      assert da[|da| - 1] == Digit(a % 10) && db[|db| - 1] == Digit(b % 10);
      assert da[..|da| - 1] == NatDigits(a / 10) && db[..|db| - 1] == NatDigits(b / 10);
      NatDigitsInjective(a / 10, b / 10);
    }
  }

  /** Length of the longest run of digits at the start of a string. */
  function DigitRun(s: string): nat
  {
    if s == [] || !IsDigit(s[0]) then 0 else 1 + DigitRun(s[1..])
  }

  lemma {:induction false} DigitRunAppend(d: string, r: string)
    requires AllDigits(d)
    requires r == [] || !IsDigit(r[0])
    ensures DigitRun(d + r) == |d|
  {
    if d == [] {
      assert d + r == r;
    } else {
      assert (d + r)[0] == d[0];
      assert (d + r)[1..] == d[1..] + r;
      DigitRunAppend(d[1..], r);
    }
  }

  /** A digit string followed by something that is not a digit ends exactly
      where the digits end. */
  lemma NatDigitsPrefix(a: nat, b: nat, r1: string, r2: string)
    requires NatDigits(a) + r1 == NatDigits(b) + r2
    requires r1 == [] || !IsDigit(r1[0])
    requires r2 == [] || !IsDigit(r2[0])
    ensures a == b && r1 == r2
  {
    DigitRunAppend(NatDigits(a), r1);
    DigitRunAppend(NatDigits(b), r2);
    SplitEqual(NatDigits(a), r1, NatDigits(b), r2);
    NatDigitsInjective(a, b);
  }

  /** The first character of a serialized key tells its kind. */
  lemma HashShape(k: QueryKey)
    ensures |Hash(k)| > 0
    ensures k.Str? <==> Hash(k)[0] == '"'
    ensures k.Arr? <==> Hash(k)[0] == '['
    ensures k.Int? <==> (Hash(k)[0] == '-' || IsDigit(Hash(k)[0]))
  {
    if k.Int? && k.n < 0 {
      assert Hash(k)[0] == '-';
    }
  }

  lemma StrPrefix(s1: string, s2: string, r1: string, r2: string)
    requires Hash(Str(s1)) + r1 == Hash(Str(s2)) + r2
    ensures s1 == s2 && r1 == r2
  {
    var b1, b2 := Escape(s1) + (['"'] + r1), Escape(s2) + (['"'] + r2);
    assert Hash(Str(s1)) + r1 == ['"'] + b1;
    assert Hash(Str(s2)) + r2 == ['"'] + b2;
    SplitEqual(['"'], b1, ['"'], b2);
    EscapeInjective(s1, s2, r1, r2);
  }

  /** How a serialized integer followed by more text begins. */
  lemma NumberStart(n: int, r: string)
    ensures n < 0 ==> NumberString(n) + r == ['-'] + (NatDigits(-n) + r)
    ensures n >= 0 ==> NumberString(n) + r == NatDigits(n) + r
    ensures (NumberString(n) + r)[0] == '-' <==> n < 0
  {
    if n >= 0 {
      assert (NatDigits(n) + r)[0] == NatDigits(n)[0];
    }
  }

  lemma DelimitedNotDigit(r: string)
    requires Delimited(r)
    ensures r == [] || !IsDigit(r[0])
  {
  }

  lemma IntPrefix(n1: SafeInt, n2: SafeInt, r1: string, r2: string)
    requires Hash(Int(n1)) + r1 == Hash(Int(n2)) + r2
    requires Delimited(r1) && Delimited(r2)
    ensures n1 == n2 && r1 == r2
  {
    assert Hash(Int(n1)) == NumberString(n1) && Hash(Int(n2)) == NumberString(n2);
    DelimitedNotDigit(r1);
    DelimitedNotDigit(r2);
    NumberPrefix(n1, n2, r1, r2);
  }

  /** A number followed by something that is not a digit ends exactly where
      its digits end. */
  lemma NumberPrefix(n1: int, n2: int, r1: string, r2: string)
    requires NumberString(n1) + r1 == NumberString(n2) + r2
    requires r1 == [] || !IsDigit(r1[0])
    requires r2 == [] || !IsDigit(r2[0])
    ensures n1 == n2 && r1 == r2
  {
    NumberSign(n1, n2, r1, r2);
    if n1 < 0 {
      NegativeCase(n1, n2, r1, r2);
    } else {
      PositiveCase(n1, n2, r1, r2);
    }
  }

  lemma NegativeCase(n1: int, n2: int, r1: string, r2: string)
    requires n1 < 0 && n2 < 0
    requires NumberString(n1) + r1 == NumberString(n2) + r2
    requires r1 == [] || !IsDigit(r1[0])
    requires r2 == [] || !IsDigit(r2[0])
    ensures n1 == n2 && r1 == r2
  {
    NegativeDigits(n1, n2, r1, r2);
    var a: nat, b: nat := -n1, -n2;
    NatDigitsPrefix(a, b, r1, r2);
  }

  /** Behind equal minus signs come equal texts. */
  lemma NegativeDigits(n1: int, n2: int, r1: string, r2: string)
    requires n1 < 0 && n2 < 0
    requires NumberString(n1) + r1 == NumberString(n2) + r2
    ensures NatDigits(-n1) + r1 == NatDigits(-n2) + r2
  {
    DropSign(n1, r1);
    DropSign(n2, r2);
  }

  /** After the minus sign of a negative number come its digits. */
  lemma DropSign(n: int, r: string)
    requires n < 0
    ensures (NumberString(n) + r)[1..] == NatDigits(-n) + r
  {
    var d := NatDigits(-n);
    assert NumberString(n) + r == ['-'] + (d + r);
  }

  lemma PositiveCase(n1: int, n2: int, r1: string, r2: string)
    requires n1 >= 0 && n2 >= 0
    requires NumberString(n1) + r1 == NumberString(n2) + r2
    requires r1 == [] || !IsDigit(r1[0])
    requires r2 == [] || !IsDigit(r2[0])
    ensures n1 == n2 && r1 == r2
  {
    NatDigitsPrefix(n1, n2, r1, r2);
  }

  /** Equal texts start with numbers of the same sign. */
  lemma NumberSign(n1: int, n2: int, r1: string, r2: string)
    requires NumberString(n1) + r1 == NumberString(n2) + r2
    ensures n1 < 0 <==> n2 < 0
  {
    NumberStart(n1, r1);
    NumberStart(n2, r2);
  }

  lemma ArrPrefix(i1: seq<QueryKey>, i2: seq<QueryKey>, r1: string, r2: string)
    requires Hash(Arr(i1)) + r1 == Hash(Arr(i2)) + r2
    ensures Join(i1) + ([']'] + r1) == Join(i2) + ([']'] + r2)
  {
    var b1, b2 := Join(i1) + ([']'] + r1), Join(i2) + ([']'] + r2);
    assert Hash(Arr(i1)) + r1 == ['['] + b1;
    assert Hash(Arr(i2)) + r2 == ['['] + b2;
    SplitEqual(['['], b1, ['['], b2);
  }

  /** The heart of injectivity: a serialized key followed by a delimiter can
      be split in only one way. */
  lemma {:induction false} HashPrefix(k1: QueryKey, k2: QueryKey, r1: string, r2: string)
    requires Hash(k1) + r1 == Hash(k2) + r2
    requires Delimited(r1) && Delimited(r2)
    ensures k1 == k2 && r1 == r2
    decreases k1, 1
  {
    HashShape(k1);
    HashShape(k2);
    assert (Hash(k1) + r1)[0] == Hash(k1)[0];
    assert (Hash(k2) + r2)[0] == Hash(k2)[0];
    match k1
    case Str(s1) =>
      StrPrefix(s1, k2.s, r1, r2);
    case Int(n1) =>
      IntPrefix(n1, k2.n, r1, r2);
    case Arr(i1) =>
      ArrPrefix(i1, k2.items, r1, r2);
      JoinPrefix(i1, k2.items, r1, r2);
  }

  /** What follows the first element of a non-empty array body. */
  function JoinTail(ks: seq<QueryKey>): string
    requires ks != []
  {
    if |ks| == 1 then [] else [','] + Join(ks[1..])
  }

  /** A non-empty array body starts with its first element, never with the
      closing bracket. */
  lemma JoinCons(ks: seq<QueryKey>, q: string)
    requires ks != []
    ensures Join(ks) + q == Hash(ks[0]) + (JoinTail(ks) + q)
    ensures (Join(ks) + q)[0] != ']'
  {
    HashShape(ks[0]);
    JoinSplit(ks);
    AppendFront(Hash(ks[0]), JoinTail(ks), q);
  }

  /** A non-empty array body is its first element followed by the rest. */
  lemma JoinSplit(ks: seq<QueryKey>)
    requires ks != []
    ensures Join(ks) == Hash(ks[0]) + JoinTail(ks)
  {
  }

  /** Concatenation regroups and keeps the first element of a non-empty front. */
  lemma AppendFront<T>(e: seq<T>, t: seq<T>, q: seq<T>)
    requires e != []
    ensures (e + t) + q == e + (t + q)
    ensures (e + (t + q))[0] == e[0]
  {
  }

  /** How an array body followed by its closing bracket begins: with the
      bracket exactly when the array is empty. */
  lemma JoinStart(ks: seq<QueryKey>, r: string)
    ensures ks == [] ==> Join(ks) + ([']'] + r) == [']'] + r
    ensures ks != [] ==> Join(ks) + ([']'] + r) == Hash(ks[0]) + (JoinTail(ks) + ([']'] + r))
    ensures (Join(ks) + ([']'] + r))[0] == ']' <==> ks == []
  {
    if ks == [] {
      assert Join(ks) == [];
    } else {
      JoinCons(ks, [']'] + r);
    }
  }

  /** After the first element comes a comma exactly when there is a second. */
  lemma TailStart(ks: seq<QueryKey>, r: string)
    requires ks != []
    ensures |ks| == 1 ==> JoinTail(ks) + ([']'] + r) == [']'] + r
    ensures |ks| > 1 ==> JoinTail(ks) + ([']'] + r) == [','] + (Join(ks[1..]) + ([']'] + r))
    ensures Delimited(JoinTail(ks) + ([']'] + r))
    ensures (JoinTail(ks) + ([']'] + r))[0] == ',' <==> |ks| > 1
  {
  }

  lemma {:induction false} JoinPrefix(i1: seq<QueryKey>, i2: seq<QueryKey>, r1: string, r2: string)
    requires Join(i1) + ([']'] + r1) == Join(i2) + ([']'] + r2)
    ensures i1 == i2 && r1 == r2
    decreases i1, 0
  {
    JoinStart(i1, r1);
    JoinStart(i2, r2);
    if i1 == [] && i2 == [] {
      SplitEqual([']'], r1, [']'], r2);
    } else {
      var t1, t2 := JoinTail(i1) + ([']'] + r1), JoinTail(i2) + ([']'] + r2);
      TailStart(i1, r1);
      TailStart(i2, r2);
      HashPrefix(i1[0], i2[0], t1, t2);
      if |i1| == 1 && |i2| == 1 {
        SplitEqual([']'], r1, [']'], r2);
      } else {
        SplitEqual([','], Join(i1[1..]) + ([']'] + r1), [','], Join(i2[1..]) + ([']'] + r2));
        JoinPrefix(i1[1..], i2[1..], r1, r2);
      }
      assert i1 == [i1[0]] + i1[1..] && i2 == [i2[0]] + i2[1..];
    }
  }

  /** Two keys name the same cache entry exactly when they are equal. */
  lemma HashInjective(k1: QueryKey, k2: QueryKey)
    ensures Hash(k1) == Hash(k2) <==> k1 == k2
  {
    if Hash(k1) == Hash(k2) {
      assert Hash(k1) + [] == Hash(k2) + [];
      HashPrefix(k1, k2, [], []);
    }
  }

  /** Serialization is type-sensitive: `['post', 1]` and `['post', '1']` are
      different queries. */
  lemma TypeSensitive()
    ensures Hash(Arr([Str("post"), Int(1)])) != Hash(Arr([Str("post"), Str("1")]))
  {
    HashInjective(Arr([Str("post"), Int(1)]), Arr([Str("post"), Str("1")]));
  }
}
