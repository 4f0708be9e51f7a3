/// String helpers with the JavaScript semantics the analysis relies on:
/// `trim`, `toLowerCase`, `includes`, `startsWith`, `split`, `lastIndexOf`,
/// `padStart`, `parseInt(s, 10)` and the decimal rendering of integers.
module Text {
  import opened Wrappers

  predicate IsDigit(c: char) { '0' <= c <= '9' }

  predicate AllDigits(s: string) { forall i :: 0 <= i < |s| ==> IsDigit(s[i]) }

  /// ECMAScript WhiteSpace and LineTerminator code points: what `trim`
  /// removes, what `parseInt` skips and what `\s` matches in a regular
  /// expression.
  predicate IsSpace(c: char) {
    if c <= ' ' then c == ' ' || '\t' <= c <= '\r'
    else '\U{A0}' <= c
         && (c == '\U{A0}' || c == '\U{1680}' || ('\U{2000}' <= c <= '\U{200A}')
             || c == '\U{2028}' || c == '\U{2029}' || c == '\U{202F}' || c == '\U{205F}'
             || c == '\U{3000}' || c == '\U{FEFF}')
  }

  /// Lower-casing of one character, for ASCII and the Latin-1 letters
  /// (`'É'` becomes `'é'`).
  function LowerChar(c: char): char {
    if 'A' <= c <= 'Z' || ('\U{C0}' <= c <= '\U{DE}' && c != '\U{D7}') then (c as int + 32) as char else c
  }

  /// Each character lower-cased on its own, the length kept: what a
  /// case-insensitive regular expression without the `u` flag compares,
  /// and `toLowerCase` on a text without a dotted capital I.
  function LowerEach(s: string): (r: string)
    ensures |r| == |s|
    ensures forall i :: 0 <= i < |s| ==> r[i] == LowerChar(s[i])
  {
    seq(|s|, i requires 0 <= i < |s| => LowerChar(s[i]))
  }

  /// The dotted capital I, the one character whose lower case is two code
  /// units: an `i` and a combining dot above.
  const DOTTED_I: char := '\U{130}'

  const COMBINING_DOT: char := '\U{307}'

  /// `toLowerCase` of one character.
  function LowerOf(c: char): (r: string)
    ensures c == DOTTED_I ==> r == ['i', COMBINING_DOT]
    ensures c != DOTTED_I ==> r == [LowerChar(c)]
  {
    if c == DOTTED_I then ['i', COMBINING_DOT] else [LowerChar(c)]
  }

  /// `String.prototype.toLowerCase`: longer than `s` by one code unit per
  /// dotted capital I, and the same as `LowerEach(s)` when there is none.
  function ToLowerCase(s: string): (r: string)
    ensures |r| >= |s|
    ensures |r| == |s| <==> DOTTED_I !in s
    ensures DOTTED_I !in s ==> r == LowerEach(s)
    ensures DOTTED_I in s ==> COMBINING_DOT in r
  {
    if s == [] then []
    else
      var init := s[..|s| - 1];
      var r := ToLowerCase(init) + LowerOf(s[|s| - 1]);
      assert s == init + [s[|s| - 1]];
      assert DOTTED_I in s <==> DOTTED_I in init || s[|s| - 1] == DOTTED_I;
      assert DOTTED_I !in s ==> r == LowerEach(init) + [LowerChar(s[|s| - 1])];
      r
  }

  /// Lower-casing one more character appends that character's lower case.
  lemma ToLowerCaseSnoc(s: string, c: char)
    ensures ToLowerCase(s + [c]) == ToLowerCase(s) + LowerOf(c)
  {
    var sc := s + [c];
    assert sc[..|sc| - 1] == s && sc[|sc| - 1] == c;
  }

  lemma {:induction false} ToLowerCaseConcat(a: string, b: string)
    ensures ToLowerCase(a + b) == ToLowerCase(a) + ToLowerCase(b)
    decreases |b|
  {
    if b == [] {
      assert a + b == a;
    } else {
      var init := b[..|b| - 1];
      var last := b[|b| - 1];
      assert a + b == (a + init) + [last];
      assert b == init + [last];
      calc {
        ToLowerCase(a + b);
        ToLowerCase((a + init) + [last]);
        { ToLowerCaseSnoc(a + init, last); }
        ToLowerCase(a + init) + LowerOf(last);
        { ToLowerCaseConcat(a, init); }
        ToLowerCase(a) + ToLowerCase(init) + LowerOf(last);
        ToLowerCase(a) + (ToLowerCase(init) + LowerOf(last));
        { ToLowerCaseSnoc(init, last); }
        ToLowerCase(a) + ToLowerCase(b);
      }
    }
  }

  /// "İ.ddd" lower-cased is one code unit longer: the dot moves to index 2.
  lemma ToLowerCaseDottedI()
    ensures ToLowerCase([DOTTED_I] + ".ddd") == ['i', COMBINING_DOT] + ".ddd"
  {
    ToLowerCaseConcat([DOTTED_I], ".ddd");
    assert [DOTTED_I][..0] == [];
    assert DOTTED_I !in ".ddd";
  }

  lemma LowerEachConcat(a: string, b: string)
    ensures LowerEach(a + b) == LowerEach(a) + LowerEach(b)
  {
  }

  lemma LowerEachDigits(s: string)
    requires AllDigits(s)
    ensures LowerEach(s) == s
  {
  }

  function TrimStart(s: string): (r: string)
    ensures |r| <= |s| && r == s[|s| - |r|..]
    ensures r == [] || !IsSpace(r[0])
  {
    if s != [] && IsSpace(s[0]) then TrimStart(s[1..]) else s
  }

  function TrimEnd(s: string): (r: string)
    ensures |r| <= |s| && r == s[..|r|]
    ensures r == [] || !IsSpace(r[|r| - 1])
  {
    if s != [] && IsSpace(s[|s| - 1]) then TrimEnd(s[..|s| - 1]) else s
  }

  /// `String.prototype.trim`.
  function Trim(s: string): string { TrimEnd(TrimStart(s)) }

  /// Leading white space stops at the first character that is not.
  lemma {:induction false} TrimStartConcat(a: string, b: string)
    requires b != [] && !IsSpace(b[0])
    ensures TrimStart(a + b) == TrimStart(a) + b
  {
    if a != [] {
      assert (a + b)[0] == a[0] && (a + b)[1..] == a[1..] + b;
      TrimStartConcat(a[1..], b);
    }
  }

  /// Trailing white space stops at the last character that is not.
  lemma {:induction false} TrimEndConcat(a: string, b: string)
    requires a != [] && !IsSpace(a[|a| - 1])
    ensures TrimEnd(a + b) == a + TrimEnd(b)
  {
    if b != [] {
      assert (a + b)[|a + b| - 1] == b[|b| - 1] && (a + b)[..|a + b| - 1] == a + b[..|b| - 1];
      TrimEndConcat(a, b[..|b| - 1]);
    }
  }

  /// `trim` of two parts around a separator that is not white space trims
  /// only the outer ends.
  lemma TrimAround(a: string, c: char, b: string)
    requires !IsSpace(c)
    ensures Trim(a + [c] + b) == TrimStart(a) + [c] + TrimEnd(b)
  {
    var ta := TrimStart(a);
    var left := ta + [c];
    var cb := [c] + b;
    var x := a + [c] + b;
    assert x == a + cb;
    assert ta + cb == left + b;
    TrimStartConcat(a, cb);
    TrimEndConcat(left, b);
    assert Trim(x) == left + TrimEnd(b);
  }

  lemma TrimStartIdempotent(s: string)
    ensures TrimStart(TrimStart(s)) == TrimStart(s)
  {
    var t := TrimStart(s);
    assert t == [] || !IsSpace(t[0]);
  }

  /// `parseInt` skips leading white space itself.
  lemma ParseIntTrimStart(s: string)
    ensures ParseInt(TrimStart(s)) == ParseInt(s)
  {
    TrimStartIdempotent(s);
  }

  /// Trimming the start of a prefix keeps it a prefix of the trimmed whole,
  /// unless nothing but white space is left.
  lemma {:induction false} TrimStartPrefix(p: string, s: string)
    requires |p| <= |s| && s[..|p|] == p && TrimStart(p) != []
    ensures var tp := TrimStart(p); var ts := TrimStart(s);
            |tp| <= |ts| && ts[..|tp|] == tp
  {
    assert p != [] && p[0] == s[0];
    if IsSpace(p[0]) {
      assert TrimStart(p) == TrimStart(p[1..]);
      assert TrimStart(s) == TrimStart(s[1..]);
      assert s[1..][..|p| - 1] == p[1..];
      TrimStartPrefix(p[1..], s[1..]);
    } else {
      assert TrimStart(p) == p;
      assert TrimStart(s) == s;
    }
  }

  /// `parseInt` reads a number from a string as soon as it reads one from a
  /// prefix of it.
  lemma ParseIntPrefix(p: string, s: string)
    requires |p| <= |s| && s[..|p|] == p && ParseInt(p).Some?
    ensures ParseInt(s).Some?
  {
    TrimStartPrefix(p, s);
    var tp := TrimStart(p);
    var ts := TrimStart(s);
    var up := if tp[0] == '-' || tp[0] == '+' then tp[1..] else tp;
    assert ts[0] == tp[0];
    var us := if ts[0] == '-' || ts[0] == '+' then ts[1..] else ts;
    assert up != [] && IsDigit(up[0]);
    assert us[0] == up[0];
  }

  predicate StartsWith(s: string, w: string) { |w| <= |s| && s[..|w|] == w }

  /// `w` occurs in `s` at position `i`.
  predicate OccursAt(s: string, w: string, i: int) {
    0 <= i <= |s| - |w| && s[i..i + |w|] == w
  }

  /// `String.prototype.includes`.
  predicate Contains(s: string, w: string) {
    exists i :: 0 <= i <= |s| - |w| && OccursAt(s, w, i)
  }

  /// An occurrence of `w` in `a + [c] + b` that cannot cover `c` lies in `a`
  /// or in `b`.
  lemma ContainsAcross(a: string, c: char, b: string, w: string)
    requires c !in w
    ensures Contains(a + [c] + b, w) ==> Contains(a, w) || Contains(b, w)
  {
    var s := a + [c] + b;
    forall i | 0 <= i <= |a| < i + |w| <= |s|
      ensures !OccursAt(s, w, i)
    {
      assert s[i..i + |w|][|a| - i] == c;
    }
    if Contains(s, w) {
      var i :| 0 <= i <= |s| - |w| && OccursAt(s, w, i);
      if i + |w| <= |a| {
        assert OccursAt(a, w, i);
      } else if i > |a| {
        assert b[i - |a| - 1..i - |a| - 1 + |w|] == s[i..i + |w|];
        assert OccursAt(b, w, i - |a| - 1);
      }
    }
  }

  /// A string with no occurrence of some character of `w` does not contain `w`.
  lemma NotContainsMissing(s: string, w: string, k: nat)
    requires k < |w| && w[k] !in s
    ensures !Contains(s, w)
  {
    forall i | 0 <= i <= |s| - |w|
      ensures !OccursAt(s, w, i)
    {
      assert s[i + k] in s;
      assert s[i..i + |w|][k] == s[i + k];
    }
  }

  lemma ContainsPrefix(w: string, rest: string)
    ensures Contains(w + rest, w)
  {
    assert OccursAt(w + rest, w, 0);
  }

  lemma ContainsConcatRight(a: string, b: string, w: string)
    requires Contains(b, w)
    ensures Contains(a + b, w)
  {
    var i :| 0 <= i <= |b| - |w| && OccursAt(b, w, i);
    assert (a + b)[|a| + i..|a| + i + |w|] == b[i..i + |w|];
    assert OccursAt(a + b, w, |a| + i);
  }

  /// Index of the first `c` in `s`, or `|s|` when there is none.
  function FirstIndex(s: string, c: char): (i: nat)
    ensures i <= |s| && c !in s[..i]
    ensures i < |s| ==> s[i] == c
  {
    if s == [] then 0 else if s[0] == c then 0 else 1 + FirstIndex(s[1..], c)
  }

  /// `String.prototype.split` with a one-character separator.
  function Split(s: string, sep: char): (parts: seq<string>)
    ensures |parts| >= 1
    decreases |s|
  {
    var i := FirstIndex(s, sep);
    if i == |s| then [s] else [s[..i]] + Split(s[i + 1..], sep)
  }

  lemma FirstIndexAbsent(s: string, c: char)
    requires c !in s
    ensures FirstIndex(s, c) == |s|
  {
  }

  lemma {:induction false} FirstIndexAfter(a: string, c: char, t: string)
    requires c !in a
    ensures FirstIndex(a + [c] + t, c) == |a|
  {
    if a != [] {
      assert (a + [c] + t)[1..] == a[1..] + [c] + t;
      FirstIndexAfter(a[1..], c, t);
    }
  }

  lemma SplitTwo(a: string, sep: char, b: string)
    requires sep !in a && sep !in b
    ensures Split(a + [sep] + b, sep) == [a, b]
  {
    var s := a + [sep] + b;
    FirstIndexAfter(a, sep, b);
    assert s[..|a|] == a && s[|a| + 1..] == b;
    FirstIndexAbsent(b, sep);
  }

  /// `String.prototype.lastIndexOf` for one character: -1 when absent.
  function LastIndex(s: string, c: char): (i: int)
    ensures -1 <= i < |s|
    ensures i >= 0 ==> s[i] == c && c !in s[i + 1..]
    ensures i == -1 ==> c !in s
  {
    if s == [] then -1
    else if s[|s| - 1] == c then |s| - 1
    else
      var j := LastIndex(s[..|s| - 1], c);
      assert s == s[..|s| - 1] + [s[|s| - 1]];
      j
  }
  /// A position holding `c` with no `c` after it is the last index of `c`.
  lemma {:induction false} LastIndexAt(s: string, c: char, j: nat)
    requires j < |s| && s[j] == c && c !in s[j + 1..]
    ensures LastIndex(s, c) == j
  {
    if j < |s| - 1 {
      assert s[|s| - 1] in s[j + 1..];
      assert s[..|s| - 1][j + 1..] == s[j + 1..|s| - 1];
      LastIndexAt(s[..|s| - 1], c, j);
    }
  }


  // ---------------------------------------------------------------------
  // Decimal digits

  function DigitValue(c: char): nat requires IsDigit(c) { c as int - '0' as int }

  function DigitChar(d: nat): char requires d < 10 { ('0' as int + d) as char }

  /// Value of a string of decimal digits, most significant first.
  function DigitsValue(s: string): nat
    requires AllDigits(s)
  {
    if s == [] then 0 else 10 * DigitsValue(s[..|s| - 1]) + DigitValue(s[|s| - 1])
  }

  /// Decimal rendering of a natural number (`Number.prototype.toString`).
  function NatToString(n: nat): (s: string)
    ensures |s| >= 1 && AllDigits(s)
  {
    if n < 10 then [DigitChar(n)] else NatToString(n / 10) + [DigitChar(n % 10)]
  }

  function IntToString(n: int): string {
    if n < 0 then "-" + NatToString(-n) else NatToString(n)
  }

  lemma {:induction false} NatToStringValue(n: nat)
    ensures DigitsValue(NatToString(n)) == n
  {
    if n >= 10 {
      NatToStringValue(n / 10);
      var s := NatToString(n);
      assert s[..|s| - 1] == NatToString(n / 10);
    }
  }

  lemma {:induction false} NatToStringLength(n: nat, k: nat)
    requires n < Pow10(k)
    ensures |NatToString(n)| <= if k == 0 then 1 else k
  {
    if n >= 10 {
      assert k >= 2;
      NatToStringLength(n / 10, k - 1);
    }
  }

  function Pow10(k: nat): nat { if k == 0 then 1 else 10 * Pow10(k - 1) }

  lemma {:induction false} NatToStringAtLeast(n: nat, k: nat)
    requires k >= 1 && n >= Pow10(k - 1)
    ensures |NatToString(n)| >= k
  {
    if k > 1 {
      NatToStringAtLeast(n / 10, k - 1);
    }
  }

  function Zeros(k: nat): (s: string)
    ensures |s| == k && AllDigits(s)
    ensures forall i :: 0 <= i < k ==> s[i] == '0'
  {
    seq(k, _ => '0')
  }

  /// `String.prototype.padStart(width, '0')`.
  function PadStart(s: string, width: nat): (r: string)
    ensures |r| == if |s| >= width then |s| else width
    ensures AllDigits(s) ==> AllDigits(r)
  {
    if |s| >= width then s else Zeros(width - |s|) + s
  }

  lemma {:induction false} LeadingZerosValue(z: nat, s: string)
    requires AllDigits(s)
    ensures AllDigits(Zeros(z) + s) && DigitsValue(Zeros(z) + s) == DigitsValue(s)
    decreases |s|
  {
    var t := Zeros(z) + s;
    if s == [] {
      assert t == Zeros(z);
      ZerosValue(z);
    } else {
      assert t[..|t| - 1] == Zeros(z) + s[..|s| - 1];
      LeadingZerosValue(z, s[..|s| - 1]);
    }
  }

  lemma {:induction false} ZerosValue(z: nat)
    ensures DigitsValue(Zeros(z)) == 0
  {
    if z > 0 {
      assert Zeros(z)[..z - 1] == Zeros(z - 1);
      ZerosValue(z - 1);
    }
  }

  lemma PaddedValue(n: nat, width: nat)
    ensures AllDigits(PadStart(NatToString(n), width))
    ensures DigitsValue(PadStart(NatToString(n), width)) == n
  {
    NatToStringValue(n);
    var s := NatToString(n);
    if |s| < width {
      LeadingZerosValue(width - |s|, s);
    }
  }

  // ---------------------------------------------------------------------
  // parseInt(s, 10)

  /// Length of the run of decimal digits at the start of `s`.
  function DigitRun(s: string): (k: nat)
    ensures k <= |s| && AllDigits(s[..k])
    ensures k < |s| ==> !IsDigit(s[k])
  {
    if s != [] && IsDigit(s[0]) then
      var k := 1 + DigitRun(s[1..]);
      assert s[..k] == [s[0]] + s[1..][..k - 1];
      k
    else 0
  }

  /// `parseInt(s, 10)`: leading white space is skipped, then the rest is
  /// read by `ParseSigned`.
  function ParseInt(s: string): Option<int> {
    ParseSigned(TrimStart(s))
  }

  /// One optional sign, then the longest run of decimal digits; `None`
  /// stands for `NaN` (no digit at all). Anything after the digits is
  /// ignored.
  function ParseSigned(t: string): Option<int> {
    var negative := t != [] && t[0] == '-';
    var u := if t != [] && (t[0] == '-' || t[0] == '+') then t[1..] else t;
    var k := DigitRun(u);
    if k == 0 then None
    else
      var v: int := DigitsValue(u[..k]);
      if negative then Some(-v) else Some(v)
  }

  lemma DigitRunAll(s: string)
    requires AllDigits(s)
    ensures DigitRun(s) == |s|
  {
    if s != [] {
      DigitRunAll(s[1..]);
    }
  }

  lemma ParseIntDigits(s: string)
    requires s != [] && AllDigits(s)
    ensures ParseInt(s) == Some(DigitsValue(s))
  {
    assert !IsSpace(s[0]);
    DigitRunAll(s);
    assert s[..|s|] == s;
  }

  /// `parseInt` reads back a zero-padded rendering of any natural number.
  lemma ParseIntPadded(n: nat, width: nat)
    ensures ParseInt(PadStart(NatToString(n), width)) == Some(n)
  {
    PaddedValue(n, width);
    ParseIntDigits(PadStart(NatToString(n), width));
  }

  // ---------------------------------------------------------------------
  // String order

  /// Code-unit lexicographic order. For strings made of digits, `-` and
  /// letters, as the week keys are, `localeCompare` orders them the same
  /// way: every difference between them is a primary one.
  predicate StrLe(a: string, b: string) {
    a == [] || (b != [] && (a[0] < b[0] || (a[0] == b[0] && StrLe(a[1..], b[1..]))))
  }

  /// A common prefix does not change the order.
  lemma {:induction false} StrLePrefix(p: string, a: string, b: string)
    ensures StrLe(p + a, p + b) <==> StrLe(a, b)
  {
    if p == [] {
      assert p + a == a && p + b == b;
    } else {
      assert (p + a)[0] == p[0] && (p + b)[0] == p[0];
      assert (p + a)[1..] == p[1..] + a && (p + b)[1..] == p[1..] + b;
      StrLePrefix(p[1..], a, b);
    }
  }

  lemma {:induction false} StrLeTotal(a: string, b: string)
    ensures StrLe(a, b) || StrLe(b, a)
  {
    if a != [] && b != [] && a[0] == b[0] {
      StrLeTotal(a[1..], b[1..]);
    }
  }

  lemma {:induction false} StrLeTransitive(a: string, b: string, c: string)
    requires StrLe(a, b) && StrLe(b, c)
    ensures StrLe(a, c)
  {
    if a != [] && a[0] == b[0] && b[0] == c[0] {
      StrLeTransitive(a[1..], b[1..], c[1..]);
    }
  }

  lemma {:induction false} StrLeAntisymmetric(a: string, b: string)
    requires StrLe(a, b) && StrLe(b, a)
    ensures a == b
  {
    if a != [] {
      StrLeAntisymmetric(a[1..], b[1..]);
      assert a == [a[0]] + a[1..] && b == [b[0]] + b[1..];
    }
  }
}
