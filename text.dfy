/** String operations with the meaning of the JavaScript built-ins the
    backend relies on: `String.prototype.trim`, `split` on one character,
    case-insensitive comparison (the `i` flag of a RegExp, on ASCII letters)
    and `Number(...)` applied to a string, restricted to decimal integers. */
module Text {
  import opened Wrappers

  /** The characters ECMAScript's `trim` removes (WhiteSpace and LineTerminator). */
  predicate IsWhitespace(c: char) {
    var n := c as int;
    n == 0x09 || n == 0x0A || n == 0x0B || n == 0x0C || n == 0x0D || n == 0x20
    || n == 0xA0 || n == 0x1680 || (0x2000 <= n <= 0x200A) || n == 0x2028
    || n == 0x2029 || n == 0x202F || n == 0x205F || n == 0x3000 || n == 0xFEFF
  }

  /** How many whitespace characters `trim` strips from the front of `s`. */
  function LeadingBlanks(s: string): (n: nat)
    ensures n <= |s|
    ensures forall i :: 0 <= i < n ==> IsWhitespace(s[i])
    ensures n < |s| ==> !IsWhitespace(s[n])
  {
    if s != [] && IsWhitespace(s[0]) then 1 + LeadingBlanks(s[1..]) else 0
  }

  /** Where the content of `s` ends: everything from there on is whitespace. */
  function ContentEnd(s: string): (n: nat)
    ensures n <= |s|
    ensures forall i :: n <= i < |s| ==> IsWhitespace(s[i])
    ensures 0 < n ==> !IsWhitespace(s[n - 1])
  {
    if s != [] && IsWhitespace(s[|s| - 1]) then ContentEnd(s[..|s| - 1]) else |s|
  }

  /** `s.trim()`: `s` with its leading and trailing whitespace removed. The
      result is the slice of `s` that starts after the leading blanks; what
      lies outside it is all whitespace and its two ends are not. */
  function Trim(s: string): (r: string)
    ensures IsTrimmed(r)
    ensures LeadingBlanks(s) + |r| <= |s|
    ensures r == s[LeadingBlanks(s)..LeadingBlanks(s) + |r|]
    ensures forall i :: 0 <= i < LeadingBlanks(s) ==> IsWhitespace(s[i])
    ensures forall i :: LeadingBlanks(s) + |r| <= i < |s| ==> IsWhitespace(s[i])
  {
    var a := LeadingBlanks(s);
    var b := ContentEnd(s);
    if a < b then
      assert s[a..b][0] == s[a] && s[a..b][b - a - 1] == s[b - 1];
      s[a..b]
    else
      assert a == |s|;
      []
  }

  /** Neither end of `s` is whitespace: what a `trim: true` field stores. */
  predicate IsTrimmed(s: string) {
    s == [] || (!IsWhitespace(s[0]) && !IsWhitespace(s[|s| - 1]))
  }

  /** A string with no whitespace at either end is its own trim. */
  lemma TrimNoEdges(s: string)
    requires IsTrimmed(s)
    ensures Trim(s) == s
  {
  }

  /** Trimming twice is trimming once. */
  lemma TrimIdempotent(s: string)
    ensures Trim(Trim(s)) == Trim(s)
  {
    TrimNoEdges(Trim(s));
  }

  /** The trim is empty exactly when every character is whitespace. */
  lemma TrimEmptyIff(s: string)
    ensures Trim(s) == [] <==> forall i :: 0 <= i < |s| ==> IsWhitespace(s[i])
  {
    if Trim(s) != [] {
      assert s[LeadingBlanks(s)] == Trim(s)[0];
    }
  }

  /** Trimming only removes characters: one absent from `s` is absent from its trim. */
  lemma TrimKeepsAbsent(s: string, c: char)
    requires c !in s
    ensures c !in Trim(s)
  {
    var a := LeadingBlanks(s);
    var r := Trim(s);
    forall i | 0 <= i < |r| ensures r[i] != c {
      assert r[i] == s[a + i];
    }
  }

  function LowerChar(c: char): char {
    if 'A' <= c <= 'Z' then (c as int + 32) as char else c
  }

  /** ASCII lower-casing, the case folding of the model's case-insensitive matches. */
  function Lower(s: string): (r: string)
    ensures |r| == |s|
    ensures forall i :: 0 <= i < |s| ==> r[i] == LowerChar(s[i])
  {
    if s == [] then [] else [LowerChar(s[0])] + Lower(s[1..])
  }

  /** `needle` occurs in `hay` starting at position `i`. */
  predicate OccursAt(needle: string, hay: string, i: int) {
    0 <= i <= |hay| - |needle| && hay[i..i + |needle|] == needle
  }

  /** `needle` occurs in `hay` as a contiguous slice. */
  predicate IsInfix(needle: string, hay: string) {
    exists i | 0 <= i <= |hay| - |needle| :: OccursAt(needle, hay, i)
  }

  /** `new RegExp(needle, 'i').test(hay)` with metacharacters read literally. */
  predicate ContainsIgnoreCase(hay: string, needle: string) {
    IsInfix(Lower(needle), Lower(hay))
  }

  /** A whole-string match is in particular a substring match. */
  lemma EqualsImpliesContains(a: string, b: string)
    requires EqualsIgnoreCase(a, b)
    ensures ContainsIgnoreCase(a, b)
  {
    assert OccursAt(Lower(b), Lower(a), 0);
  }

  /** `new RegExp('^' + b + '$', 'i').test(a)` with metacharacters read literally. */
  predicate EqualsIgnoreCase(a: string, b: string) {
    Lower(a) == Lower(b)
  }

  /** `s.split(sep)` in JavaScript: the maximal pieces between separators;
      the empty string splits into one empty piece. */
  function Split(s: string, sep: char): (parts: seq<string>)
    ensures |parts| >= 1
    ensures forall k :: 0 <= k < |parts| ==> sep !in parts[k]
  {
    if s == [] then [[]]
    else
      var rest := Split(s[1..], sep);
      if s[0] == sep then [[]] + rest else [[s[0]] + rest[0]] + rest[1..]
  }

  /** `parts.join(sep)`, the inverse of `Split`. */
  function Join(parts: seq<string>, sep: char): string
    requires |parts| >= 1
  {
    if |parts| == 1 then parts[0] else parts[0] + [sep] + Join(parts[1..], sep)
  }

  /** Joining the pieces of a split gives back the string. */
  lemma {:induction false} JoinSplit(s: string, sep: char)
    ensures Join(Split(s, sep), sep) == s
  {
    if s != [] {
      var rest := Split(s[1..], sep);
      JoinSplit(s[1..], sep);
      if s[0] == sep {
        assert Split(s, sep) == [[]] + rest;
        assert ([[]] + rest)[1..] == rest;
      } else {
        var parts := [[s[0]] + rest[0]] + rest[1..];
        assert Split(s, sep) == parts;
        if |rest| == 1 {
          assert Join(rest, sep) == rest[0];
        } else {
          assert Join(rest, sep) == rest[0] + [sep] + Join(rest[1..], sep);
          assert parts[1..] == rest[1..];
        }
      }
    }
  }

  /** A separator-free prefix sticks to the first piece of what follows it. */
  lemma {:induction false} SplitPrefix(a: string, t: string, sep: char)
    requires sep !in a
    ensures Split(a + t, sep) == [a + Split(t, sep)[0]] + Split(t, sep)[1..]
  {
    if a != [] {
      assert (a + t)[1..] == a[1..] + t;
      SplitPrefix(a[1..], t, sep);
      assert [a[0]] + (a[1..] + Split(t, sep)[0]) == a + Split(t, sep)[0];
    } else {
      var p := Split(t, sep);
      assert a + t == t && a + p[0] == p[0];
      assert p == [p[0]] + p[1..];
    }
  }

  /** Splitting a join of separator-free pieces gives back the pieces. */
  lemma {:induction false} SplitJoin(parts: seq<string>, sep: char)
    requires |parts| >= 1
    requires forall k :: 0 <= k < |parts| ==> sep !in parts[k]
    ensures Split(Join(parts, sep), sep) == parts
  {
    if |parts| == 1 {
      SplitPrefix(parts[0], [], sep);
      assert parts[0] + [] == parts[0];
    } else {
      var tail := Join(parts[1..], sep);
      SplitJoin(parts[1..], sep);
      assert parts[0] + [sep] + tail == parts[0] + ([sep] + tail);
      SplitPrefix(parts[0], [sep] + tail, sep);
      assert ([sep] + tail)[1..] == tail;
      assert Split([sep] + tail, sep) == [[]] + parts[1..];
      assert parts[0] + [] == parts[0];
    }
  }

  predicate IsDigit(c: char) {
    '0' <= c <= '9'
  }

  predicate AllDigits(s: string) {
    forall i :: 0 <= i < |s| ==> IsDigit(s[i])
  }

  function DigitsValue(s: string): nat
    requires AllDigits(s)
  {
    if s == [] then 0 else 10 * DigitsValue(s[..|s| - 1]) + (s[|s| - 1] as int - '0' as int)
  }

  /** `Number(s)` for a string `s`, on decimal integers only: surrounding
      whitespace is ignored, an empty or all-blank string is 0, one leading
      sign is allowed; `None` stands for `NaN`. */
  function NumberOf(s: string): (r: Option<int>)
    ensures r.Some? && Trim(s) != [] && Trim(s)[0] != '-' && Trim(s)[0] != '+' ==> AllDigits(Trim(s))
  {
    var t := Trim(s);
    if t == [] then Some(0)
    else if (t[0] == '-' || t[0] == '+') && |t| > 1 && AllDigits(t[1..]) then
      var v: int := DigitsValue(t[1..]);
      Some(if t[0] == '-' then -v else v)
    else if AllDigits(t) then Some(DigitsValue(t))
    else None
  }

  /** The base-10 rendering of a natural number, `String(n)` in JavaScript. */
  function DecimalString(n: nat): (s: string)
    ensures |s| >= 1 && AllDigits(s)
  {
    if n < 10 then ['0' + n as char] else DecimalString(n / 10) + ['0' + (n % 10) as char]
  }

  /** Numbers below 100 have at most two digits. */
  lemma DecimalStringShort(n: nat)
    requires n < 100
    ensures |DecimalString(n)| <= 2
  {
  }

  /** `Number(String(n)) == n`: the numeric parse inverts the rendering. */
  lemma {:induction false} NumberOfDecimalString(n: nat)
    ensures NumberOf(DecimalString(n)) == Some(n)
  {
    DecimalValue(n);
    var s := DecimalString(n);
    assert IsDigit(s[0]) && IsDigit(s[|s| - 1]);
    TrimNoEdges(s);
    assert Trim(s) == s && s[0] != '-' && s[0] != '+';
  }

  lemma {:induction false} DecimalValue(n: nat)
    ensures DigitsValue(DecimalString(n)) == n
  {
    var s := DecimalString(n);
    if n >= 10 {
      DecimalValue(n / 10);
      assert s[..|s| - 1] == DecimalString(n / 10);
    }
  }

  /** A query-string or body value that JavaScript treats as true: present and non-empty. */
  predicate Truthy(v: Option<string>) {
    v.Some? && v.value != []
  }
}
