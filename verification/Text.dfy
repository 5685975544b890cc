/** Splitting, joining and decimal numerals, as the formatted keys and MQTT topics need them. */
module Text {

  /** `x + sep + y` determines `x` and `y` when no `y` contains `sep`. */
  lemma LastSeparator(x: string, y: string, x': string, y': string, sep: char)
    requires sep !in y && sep !in y' && x + [sep] + y == x' + [sep] + y'
    ensures x == x' && y == y'
  {
    var s, s' := x + [sep] + y, x' + [sep] + y';
    assert s[|x|] == sep && s'[|x'|] == sep;
    assert forall k :: |x| < k < |s| ==> s[k] == y[k - |x| - 1];
    assert forall k :: |x'| < k < |s'| ==> s'[k] == y'[k - |x'| - 1];
    assert x == s[..|x|] && x' == s'[..|x'|] && y == s[|x| + 1..] && y' == s'[|x'| + 1..];
  }

  /** `x + sep + y` determines `x` and `y` when no `x` contains `sep`. */
  lemma FirstSeparator(x: string, y: string, x': string, y': string, sep: char)
    requires sep !in x && sep !in x' && x + [sep] + y == x' + [sep] + y'
    ensures x == x' && y == y'
  {
    var s, s' := x + [sep] + y, x' + [sep] + y';
    assert s[|x|] == sep && s'[|x'|] == sep;
    assert forall k :: 0 <= k < |x| ==> s[k] == x[k];
    assert forall k :: 0 <= k < |x'| ==> s'[k] == x'[k];
    assert x == s[..|x|] && x' == s'[..|x'|] && y == s[|x| + 1..] && y' == s'[|x'| + 1..];
  }

  // ---------- decimal numerals ----------

  const DIGITS: string := "0123456789"

  function Digits(n: nat): (s: string)
    ensures s != [] && forall i :: 0 <= i < |s| ==> s[i] in DIGITS
  {
    if n < 10 then [DIGITS[n]] else Digits(n / 10) + [DIGITS[n % 10]]
  }

  /** The %d form of an integer. */
  function Decimal(n: int): string {
    if n < 0 then "-" + Digits(-n) else Digits(n)
  }

  lemma {:induction false} DigitsInjective(m: nat, n: nat)
    requires Digits(m) == Digits(n)
    ensures m == n
  {
    assert forall i, j :: 0 <= i < j < 10 ==> DIGITS[i] != DIGITS[j];
    var s, t := Digits(m), Digits(n);
    assert s[|s| - 1] == DIGITS[m % 10] && t[|t| - 1] == DIGITS[n % 10];
    assert m >= 10 ==> s[..|s| - 1] == Digits(m / 10);
    assert n >= 10 ==> t[..|t| - 1] == Digits(n / 10);
    if m >= 10 && n >= 10 {
      DigitsInjective(m / 10, n / 10);
    }
  }

  lemma DecimalSign(n: int)
    ensures Decimal(n) != [] && (Decimal(n)[0] == '-' <==> n < 0)
  {
    assert '-' !in DIGITS;
  }

  lemma DecimalInjective(m: int, n: int)
    ensures Decimal(m) == Decimal(n) <==> m == n
  {
    DecimalSign(m);
    DecimalSign(n);
    if m != n && Decimal(m) == Decimal(n) {
      if m < 0 && n < 0 {
        assert Decimal(m)[1..] == Digits(-m) && Decimal(n)[1..] == Digits(-n);
        DigitsInjective(-m, -n);
      } else if m >= 0 && n >= 0 {
        DigitsInjective(m, n);
      }
    }
  }

  lemma DecimalIsColonFree(n: int)
    ensures ':' !in Decimal(n)
  {
    assert ':' !in DIGITS;
  }

  // ---------- lists of words ----------

  /** Words joined by a separator. */
  function Join(words: seq<string>, sep: char): string {
    if words == [] then ""
    else if |words| == 1 then words[0]
    else words[0] + [sep] + Join(words[1..], sep)
  }

  /** Non-empty words without the given character. */
  ghost predicate Words(words: seq<string>, without: char) {
    forall i :: 0 <= i < |words| ==> words[i] != "" && without !in words[i]
  }

  lemma {:induction false} JoinInjective(a: seq<string>, b: seq<string>, sep: char)
    requires Words(a, sep) && Words(b, sep) && Join(a, sep) == Join(b, sep)
    ensures a == b
  {
    assert |a| >= 2 ==> Join(a, sep)[|a[0]|] == sep;
    assert |b| >= 2 ==> Join(b, sep)[|b[0]|] == sep;
    if |a| >= 2 && |b| >= 2 {
      FirstSeparator(a[0], Join(a[1..], sep), b[0], Join(b[1..], sep), sep);
      JoinInjective(a[1..], b[1..], sep);
      assert a == [a[0]] + a[1..] && b == [b[0]] + b[1..];
    }
  }

  lemma {:induction false} JoinWithout(words: seq<string>, sep: char, c: char)
    requires c != sep && forall i :: 0 <= i < |words| ==> c !in words[i]
    ensures c !in Join(words, sep)
  {
    if |words| >= 2 {
      JoinWithout(words[1..], sep, c);
    }
  }

  // ---------- splitting ----------

  /** The position of the first separator, or the length of the string. */
  function IndexOf(s: string, sep: char): (n: nat)
    ensures n <= |s| && sep !in s[..n] && (n < |s| ==> s[n] == sep)
  {
    if s == [] || s[0] == sep then 0
    else
      var n := 1 + IndexOf(s[1..], sep);
      assert s[..n] == [s[0]] + s[1..][..n - 1];
      n
  }

  /** strings.Split: the pieces between separators. */
  function Split(s: string, sep: char): (parts: seq<string>)
    ensures parts != []
    decreases |s|
  {
    var n := IndexOf(s, sep);
    if n == |s| then [s] else [s[..n]] + Split(s[n + 1..], sep)
  }

  /** Joining undoes splitting, and no piece contains the separator. */
  lemma {:induction false} JoinSplit(s: string, sep: char)
    ensures Join(Split(s, sep), sep) == s
    ensures forall i :: 0 <= i < |Split(s, sep)| ==> sep !in Split(s, sep)[i]
    decreases |s|
  {
    var n := IndexOf(s, sep);
    if n < |s| {
      JoinSplit(s[n + 1..], sep);
      assert Split(s, sep)[1..] == Split(s[n + 1..], sep);
      assert s == s[..n] + [sep] + s[n + 1..];
    }
  }

  /** Splitting undoes joining of at least one piece without separators. */
  lemma {:induction false} SplitJoin(parts: seq<string>, sep: char)
    requires parts != [] && forall i :: 0 <= i < |parts| ==> sep !in parts[i]
    ensures Split(Join(parts, sep), sep) == parts
  {
    var s := Join(parts, sep);
    var n := IndexOf(s, sep);
    if |parts| > 1 {
      SplitJoin(parts[1..], sep);
      assert s[|parts[0]|] == sep;
      if n < |s| {
        assert s == s[..n] + [sep] + s[n + 1..];
        FirstSeparator(s[..n], s[n + 1..], parts[0], Join(parts[1..], sep), sep);
      }
      assert parts == [parts[0]] + parts[1..];
    } else {
      assert s == parts[0];
    }
  }
}
