/**
 * Helpers shared by the screens: optional values, JavaScript's `x || 0`,
 * ASCII case mapping, `String.prototype.split(" ")` / `Array.prototype.join(" ")`,
 * and the string order that `Array.prototype.sort()` uses.
 */
module Common {

  datatype Option<+T> = None | Some(value: T)

  /** The outcome of an HTTP request: the response body, or a thrown error. */
  datatype Response<T> = Ok(data: T) | Failure

  /** The enrolment status of a course paid in full. */
  const FullPaid := "fullPaid"

  /** The user record the screens fetch; only the name is read. */
  datatype User = User(fullname: Option<string>)

  /** `x || 0` on a number that may be missing. */
  function OrZero(x: Option<int>): int {
    if x.Some? then x.value else 0
  }

  /** A string value that JavaScript treats as truthy: present and non-empty. */
  predicate Truthy(s: Option<string>) {
    s.Some? && s.value != ""
  }

  /** `a || b` on two optional strings, falling back to `fallback`. */
  function OrElse(s: Option<string>, fallback: string): (r: string)
    ensures Truthy(s) ==> r == s.value
    ensures !Truthy(s) ==> r == fallback
  {
    if Truthy(s) then s.value else fallback
  }

  // ---------------------------------------------------------------------------
  // ASCII case mapping (`toLowerCase` / `toUpperCase` restricted to A-Z, a-z)

  function LowerChar(c: char): char {
    if 'A' <= c <= 'Z' then (c as int + 32) as char else c
  }

  function UpperChar(c: char): char {
    if 'a' <= c <= 'z' then (c as int - 32) as char else c
  }

  function Lower(s: string): (r: string)
    ensures |r| == |s|
    ensures forall i :: 0 <= i < |s| ==> r[i] == LowerChar(s[i])
  {
    if s == [] then [] else [LowerChar(s[0])] + Lower(s[1..])
  }

  lemma CaseFacts(c: char)
    ensures LowerChar(LowerChar(c)) == LowerChar(c)
    ensures LowerChar(UpperChar(LowerChar(c))) == LowerChar(c)
    ensures (LowerChar(c) == ' ') == (c == ' ')
    ensures (UpperChar(c) == ' ') == (c == ' ')
  {
  }

  // ---------------------------------------------------------------------------
  // `s.split(" ")` and `words.join(" ")`

  /** Splits at every single space; like JavaScript, empty fields are kept and the
      result is never empty (`"".split(" ")` is `[""]`). */
  function Split(s: string): (ws: seq<string>)
    ensures |ws| >= 1
    ensures forall i, j :: 0 <= i < |ws| && 0 <= j < |ws[i]| ==> ws[i][j] != ' '
  {
    if s == [] then [""]
    else
      var rest := Split(s[1..]);
      if s[0] == ' ' then [""] + rest else [[s[0]] + rest[0]] + rest[1..]
  }

  /** The first field is a prefix of the string, ending at its end or at a space. */
  lemma {:induction false} SplitFirst(s: string)
    ensures |Split(s)[0]| <= |s|
    ensures Split(s)[0] == s[..|Split(s)[0]|]
    ensures |Split(s)[0]| == |s| || s[|Split(s)[0]|] == ' '
  {
    if s == [] {
      assert Split(s)[0] == "";
    } else if s[0] == ' ' {
      assert Split(s) == [""] + Split(s[1..]);
    } else {
      SplitFirst(s[1..]);
      var rest := Split(s[1..]);
      var w := rest[0];
      assert Split(s) == [[s[0]] + w] + rest[1..];
      assert Split(s)[0] == [s[0]] + w;
      assert s[..|w| + 1] == [s[0]] + s[1..][..|w|];
      if |w| < |s[1..]| {
        assert s[|w| + 1] == s[1..][|w|];
      }
    }
  }

  function Join(ws: seq<string>): string
    requires |ws| >= 1
  {
    if |ws| == 1 then ws[0] else ws[0] + " " + Join(ws[1..])
  }

  /** Joining the fields of a split gives back the original string. */
  lemma {:induction false} JoinSplit(s: string)
    ensures Join(Split(s)) == s
  {
    if s != [] {
      JoinSplit(s[1..]);
      var rest := Split(s[1..]);
      if s[0] == ' ' {
        assert Split(s)[1..] == rest;
        assert s == [' '] + s[1..];
      } else {
        var ws := Split(s);
        var w := [s[0]] + rest[0];
        assert ws == [w] + rest[1..];
        if |rest| == 1 {
          assert ws == [w];
          assert Join(ws) == [s[0]] + Join(rest);
        } else {
          assert ws[0] == w && ws[1..] == rest[1..];
          assert Join(ws) == [s[0]] + (rest[0] + " " + Join(rest[1..]));
          assert Join(rest) == rest[0] + " " + Join(rest[1..]);
        }
        assert s == [s[0]] + s[1..];
      }
    }
  }

  /** Splitting a join of space-free words gives back the words. */
  lemma {:induction false} SplitJoin(ws: seq<string>)
    requires |ws| >= 1
    requires forall i, j :: 0 <= i < |ws| && 0 <= j < |ws[i]| ==> ws[i][j] != ' '
    ensures Split(Join(ws)) == ws
  {
    if |ws| == 1 {
      SplitWord(ws[0]);
    } else {
      SplitJoin(ws[1..]);
      SplitPrefix(ws[0], Join(ws[1..]));
      assert ws == [ws[0]] + ws[1..];
    }
  }

  lemma {:induction false} SplitWord(w: string)
    requires forall j :: 0 <= j < |w| ==> w[j] != ' '
    ensures Split(w) == [w]
  {
    if w != [] {
      SplitWord(w[1..]);
      assert w == [w[0]] + w[1..];
    }
  }

  /** `Split(w + " " + t)` starts with the space-free word `w`. */
  lemma {:induction false} SplitPrefix(w: string, t: string)
    requires forall j :: 0 <= j < |w| ==> w[j] != ' '
    ensures Split(w + " " + t) == [w] + Split(t)
  {
    if w == [] {
      assert w + " " + t == [' '] + t;
      assert (w + " " + t)[1..] == t;
    } else {
      SplitPrefix(w[1..], t);
      var s := w + " " + t;
      assert s[0] == w[0];
      assert s[1..] == w[1..] + " " + t;
      assert w == [w[0]] + w[1..];
    }
  }

  function CountSpaces(s: string): nat {
    if s == [] then 0 else (if s[0] == ' ' then 1 else 0) + CountSpaces(s[1..])
  }

  /** The number of fields is one more than the number of spaces. */
  lemma {:induction false} SplitLength(s: string)
    ensures |Split(s)| == CountSpaces(s) + 1
  {
    if s != [] {
      SplitLength(s[1..]);
    }
  }

  /** Two strings with spaces at the same positions have the same number of spaces. */
  lemma {:induction false} SameSpaces(s: string, t: string)
    requires |s| == |t|
    requires forall i :: 0 <= i < |s| ==> (s[i] == ' ') == (t[i] == ' ')
    ensures CountSpaces(s) == CountSpaces(t)
  {
    if s != [] {
      SameSpaces(s[1..], t[1..]);
    }
  }

  /** `s.padStart(width, pad)` with a one-character pad. */
  function PadStart(s: string, width: nat, pad: char): (r: string)
    ensures |r| == if |s| >= width then |s| else width
    ensures r[|r| - |s|..] == s
    ensures forall i :: 0 <= i < |r| - |s| ==> r[i] == pad
    decreases width - |s|
  {
    if |s| >= width then s else PadStart([pad] + s, width, pad)
  }

  // ---------------------------------------------------------------------------
  // String order used by `Array.prototype.sort()` without a comparator:
  // lexicographic on characters, a proper prefix first. Dafny characters are
  // code points, so this is code-point order; `sort()` compares UTF-16 code
  // units, which orders a character above U+FFFF before one in U+E000-U+FFFF.

  predicate Lt(a: string, b: string) {
    if a == [] then b != []
    else if b == [] then false
    else if a[0] != b[0] then a[0] < b[0]
    else Lt(a[1..], b[1..])
  }

  lemma {:induction false} LtIrreflexive(a: string)
    ensures !Lt(a, a)
  {
    if a != [] {
      LtIrreflexive(a[1..]);
    }
  }

  lemma {:induction false} LtTransitive(a: string, b: string, c: string)
    requires Lt(a, b) && Lt(b, c)
    ensures Lt(a, c)
  {
    if a != [] && b != [] && c != [] && a[0] == b[0] && b[0] == c[0] {
      LtTransitive(a[1..], b[1..], c[1..]);
    }
  }

  lemma {:induction false} LtTotal(a: string, b: string)
    requires a != b
    ensures Lt(a, b) || Lt(b, a)
  {
    if a != [] && b != [] && a[0] == b[0] {
      assert a == [a[0]] + a[1..];
      assert b == [b[0]] + b[1..];
      LtTotal(a[1..], b[1..]);
    }
  }

  /** Sorted in ascending order with no repeated element. */
  ghost predicate StrictlySorted(xs: seq<string>) {
    forall i, j :: 0 <= i < j < |xs| ==> Lt(xs[i], xs[j])
  }

  /** Adds `x` to a strictly sorted list unless it is already there. */
  function InsertSorted(xs: seq<string>, x: string): (r: seq<string>)
    requires StrictlySorted(xs)
    ensures StrictlySorted(r)
    ensures forall y :: y in r <==> y in xs || y == x
  {
    if xs == [] then [x]
    else if x == xs[0] then xs
    else if Lt(x, xs[0]) then
      assert forall j :: 0 < j < |xs| ==> Lt(x, xs[j]) by {
        forall j | 0 < j < |xs| ensures Lt(x, xs[j]) { LtTransitive(x, xs[0], xs[j]); }
      }
      [x] + xs
    else
      LtTotal(x, xs[0]);
      var tail := InsertSorted(xs[1..], x);
      assert forall y :: y in tail ==> Lt(xs[0], y);
      [xs[0]] + tail
  }

  /** A strictly sorted list has no duplicates. */
  lemma StrictlySortedDistinct(xs: seq<string>)
    requires StrictlySorted(xs)
    ensures forall i, j :: 0 <= i < j < |xs| ==> xs[i] != xs[j]
  {
    forall i, j | 0 <= i < j < |xs| ensures xs[i] != xs[j] {
      LtIrreflexive(xs[i]);
    }
  }

  // ---------------------------------------------------------------------------
  // Decimal numerals, for `String(n)` and `padStart`

  function DigitChar(d: nat): char
    requires d < 10
  {
    ('0' as int + d) as char
  }

  /** `String(n)` for a non-negative integer: digits without a leading zero. */
  function Decimal(n: nat): (s: string)
    ensures |s| >= 1
    ensures forall i :: 0 <= i < |s| ==> '0' <= s[i] <= '9'
    ensures s[0] == '0' ==> n == 0 && s == "0"
    decreases n
  {
    if n < 10 then [DigitChar(n)] else Decimal(n / 10) + [DigitChar(n % 10)]
  }

  /** The value of a string of digits (leading zeros allowed). */
  function DigitsValue(s: string): nat
    requires forall i :: 0 <= i < |s| ==> '0' <= s[i] <= '9'
  {
    if s == [] then 0 else 10 * DigitsValue(s[..|s| - 1]) + (s[|s| - 1] as int - '0' as int)
  }

  lemma {:induction false} DecimalValue(n: nat)
    ensures DigitsValue(Decimal(n)) == n
    decreases n
  {
    if n >= 10 {
      DecimalValue(n / 10);
      var s := Decimal(n);
      assert s[..|s| - 1] == Decimal(n / 10);
    }
  }

  lemma {:induction false} DecimalLength(n: nat)
    ensures (n < 10) == (|Decimal(n)| == 1)
  {
  }

  /**
   * `String(n)` is the only canonical numeral of `n`: every digit string
   * without a leading zero (or the single digit "0") is the `Decimal` of its value.
   */
  lemma {:induction false} DecimalCanonical(s: string)
    requires |s| >= 1 && (|s| == 1 || s[0] != '0')
    requires forall i :: 0 <= i < |s| ==> '0' <= s[i] <= '9'
    ensures s == Decimal(DigitsValue(s))
    decreases |s|
  {
    if |s| > 1 {
      var t := s[..|s| - 1];
      var d := s[|s| - 1] as int - '0' as int;
      assert t[0] == s[0];
      DecimalCanonical(t);
      var v := DigitsValue(t);
      assert v != 0;
      var n := 10 * v + d;
      assert n / 10 == v && n % 10 == d;
      assert DigitChar(d) == s[|s| - 1];
      assert s == t + [s[|s| - 1]];
    } else {
      assert DigitChar(s[0] as int - '0' as int) == s[0];
      assert DigitsValue(s) == 10 * DigitsValue([]) + (s[0] as int - '0' as int);
    }
  }

  /** Leading zeros do not change the value of a digit string. */
  lemma {:induction false} LeadingZeroValue(s: string)
    requires forall i :: 0 <= i < |s| ==> '0' <= s[i] <= '9'
    ensures DigitsValue("0" + s) == DigitsValue(s)
    decreases |s|
  {
    if s != [] {
      var t := "0" + s;
      assert t[..|t| - 1] == "0" + s[..|s| - 1];
      LeadingZeroValue(s[..|s| - 1]);
    } else {
      assert DigitsValue("0") == 10 * DigitsValue("") + 0;
    }
  }
}
