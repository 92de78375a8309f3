/** The slice of JavaScript, lodash 3 and async 1 behaviour that the crawler's
    decisions depend on: how API strings turn into numbers, how `parseInt`,
    `>` and `!==` behave on them, case-insensitive regex characters, and the
    collection helpers `_.unique`, `_.difference` and `async.cargo`. */
module JsSemantics {

  datatype Option<T> = None | Some(value: T)

  // ---------------------------------------------------------------------------
  // Decimal digits and numbers
  // ---------------------------------------------------------------------------

  predicate IsDigit(c: char) { '0' <= c <= '9' }

  predicate AllDigits(s: string) { forall i :: 0 <= i < |s| ==> IsDigit(s[i]) }

  /** A non-empty run of decimal digits: the form YouTube's API gives its counts in. */
  predicate DigitString(s: string) { |s| > 0 && AllDigits(s) }

  function DigitValue(c: char): (d: nat)
    requires IsDigit(c)
    ensures d < 10
  {
    c as int - '0' as int
  }

  function DigitChar(d: nat): (c: char)
    requires d < 10
    ensures IsDigit(c) && DigitValue(c) == d
  {
    (d + '0' as int) as char
  }

  /** The value of a run of digits, most significant digit first. */
  function DecimalValue(s: string): nat
    requires AllDigits(s)
  {
    if s == [] then 0 else 10 * DecimalValue(s[..|s| - 1]) + DigitValue(s[|s| - 1])
  }

  /** `String(n)` for a non-negative integer: its shortest decimal spelling. */
  function NatToString(n: nat): (s: string)
    ensures DigitString(s)
    ensures |s| > 1 ==> s[0] != '0'
    ensures DecimalValue(s) == n
  {
    if n < 10 then [DigitChar(n)]
    else
      var prefix := NatToString(n / 10);
      var s := prefix + [DigitChar(n % 10)];
      assert s[..|s| - 1] == prefix;
      s
  }

  /** `Number(s)` (equivalently the implicit conversion in `s > 301`):
      the empty string is 0, a digit string is its value, anything else is
      NaN, written None. */
  function ToNumber(s: string): (r: Option<nat>)
    ensures r.Some? <==> s == "" || DigitString(s)
    ensures s == "" ==> r == Some(0)
    ensures DigitString(s) ==> r == Some(DecimalValue(s))
  {
    if s == "" then Some(0)
    else if DigitString(s) then Some(DecimalValue(s))
    else None
  }

  /** JavaScript's `s > n` for a string `s` and a number `n`: `s` is converted
      with ToNumber, and a comparison with NaN is false. */
  predicate StringGreaterThanNumber(s: string, n: int)
  {
    match ToNumber(s)
    case None => false
    case Some(v) => v > n
  }

  /** The length of the longest prefix of `s` made of digits. */
  function LeadingDigits(s: string): (k: nat)
    ensures k <= |s|
    ensures AllDigits(s[..k])
    ensures k < |s| ==> !IsDigit(s[k])
  {
    if s == [] || !IsDigit(s[0]) then 0
    else
      var k := 1 + LeadingDigits(s[1..]);
      assert s[..k] == [s[0]] + s[1..][..k - 1];
      k
  }

  /** `parseInt(s)`: the value of the leading digits, NaN (None) when there are none. */
  function ParseInt(s: string): (r: Option<nat>)
    ensures r.None? <==> (s == [] || !IsDigit(s[0]))
  {
    var k := LeadingDigits(s);
    if k == 0 then None else Some(DecimalValue(s[..k]))
  }

  /** JavaScript's `a !== b` on two numbers, NaN included: NaN differs from everything. */
  predicate NumbersDiffer(a: Option<int>, b: Option<int>)
  {
    a.None? || b.None? || a.value != b.value
  }

  /** On a digit string, `parseInt` and `Number` agree. */
  lemma {:induction false} ParseIntOfDigits(s: string)
    requires DigitString(s)
    ensures ParseInt(s) == Some(DecimalValue(s))
  {
    LeadingDigitsOfDigits(s);
    assert s[..|s|] == s;
  }

  lemma {:induction false} LeadingDigitsOfDigits(s: string)
    requires AllDigits(s)
    ensures LeadingDigits(s) == |s|
  {
    if s != [] {
      LeadingDigitsOfDigits(s[1..]);
    }
  }

  /** `parseInt(n)` on a stored number `n` reads back `n`: it goes through `String(n)`. */
  lemma ParseIntOfNumber(n: nat)
    ensures ParseInt(NatToString(n)) == Some(n)
  {
    ParseIntOfDigits(NatToString(n));
  }

  // ---------------------------------------------------------------------------
  // String comparison
  // ---------------------------------------------------------------------------

  /** JavaScript's `a < b` on two strings: lexicographic, character by
      character, a proper prefix being smaller. */
  predicate StringLess(a: string, b: string)
    decreases |a|
  {
    if b == [] then false
    else if a == [] then true
    else if a[0] != b[0] then a[0] < b[0]
    else StringLess(a[1..], b[1..])
  }

  lemma {:induction false} StringLessIrreflexive(a: string)
    ensures !StringLess(a, a)
  {
    if a != [] {
      StringLessIrreflexive(a[1..]);
    }
  }

  /** Between digit strings of one length, string order is numeric order. */
  lemma {:induction false} StringLessSameLengthDigits(a: string, b: string)
    requires |a| == |b| && AllDigits(a) && AllDigits(b)
    ensures StringLess(a, b) <==> DecimalValue(a) < DecimalValue(b)
    decreases |a|
  {
    if a != [] {
      var n := |a|;
      if a[..n - 1] == b[..n - 1] {
        StringLessCommonPrefix(a[..n - 1], a[n - 1..], b[n - 1..]);
        assert a == a[..n - 1] + a[n - 1..] && b == b[..n - 1] + b[n - 1..];
        assert StringLess(a[n - 1..], b[n - 1..]) <==> a[n - 1] < b[n - 1];
      } else {
        StringLessSameLengthDigits(a[..n - 1], b[..n - 1]);
        StringLessExtend(a[..n - 1], b[..n - 1], a[n - 1], b[n - 1]);
        assert a == a[..n - 1] + [a[n - 1]] && b == b[..n - 1] + [b[n - 1]];
        if DecimalValue(a[..n - 1]) < DecimalValue(b[..n - 1]) {
          assert DecimalValue(a[..n - 1]) + 1 <= DecimalValue(b[..n - 1]);
        } else {
          StringLessTotal(a[..n - 1], b[..n - 1]);
          StringLessSameLengthDigits(b[..n - 1], a[..n - 1]);
          assert DecimalValue(b[..n - 1]) + 1 <= DecimalValue(a[..n - 1]);
        }
      }
    }
  }

  lemma {:induction false} StringLessCommonPrefix(p: string, x: string, y: string)
    ensures StringLess(p + x, p + y) <==> StringLess(x, y)
  {
    if p != [] {
      assert (p + x)[0] == (p + y)[0] == p[0];
      assert (p + x)[1..] == p[1..] + x && (p + y)[1..] == p[1..] + y;
      StringLessCommonPrefix(p[1..], x, y);
    } else {
      assert p + x == x && p + y == y;
    }
  }

  lemma {:induction false} StringLessExtend(a: string, b: string, c: char, d: char)
    requires |a| == |b| && a != b
    ensures StringLess(a + [c], b + [d]) <==> StringLess(a, b)
  {
    assert a != [];
    if a[0] == b[0] {
      assert (a + [c])[1..] == a[1..] + [c] && (b + [d])[1..] == b[1..] + [d];
      assert a[1..] != b[1..] by { assert a == [a[0]] + a[1..] && b == [b[0]] + b[1..]; }
      StringLessExtend(a[1..], b[1..], c, d);
    }
  }

  lemma {:induction false} StringLessTotal(a: string, b: string)
    requires |a| == |b| && a != b
    ensures StringLess(a, b) || StringLess(b, a)
  {
    assert a != [];
    if a[0] == b[0] {
      assert a[1..] != b[1..] by { assert a == [a[0]] + a[1..] && b == [b[0]] + b[1..]; }
      StringLessTotal(a[1..], b[1..]);
    }
  }

  /** Across lengths the two orders part: "1000" sorts before "999". */
  lemma StringOrderIsNotNumericOrder()
    ensures StringLess("1000", "999")
    ensures ToNumber("1000") == Some(1000) && ToNumber("999") == Some(999)
  {
    assert "1000"[..3] == "100" && "100"[..2] == "10" && "10"[..1] == "1" && "1"[..0] == "";
    assert DecimalValue("1") == 1 && DecimalValue("10") == 10 && DecimalValue("100") == 100;
    assert DecimalValue("1000") == 1000;
    assert "999"[..2] == "99" && "99"[..1] == "9" && "9"[..0] == "";
    assert DecimalValue("9") == 9 && DecimalValue("99") == 99 && DecimalValue("999") == 999;
  }

  // ---------------------------------------------------------------------------
  // Characters as a JavaScript regular expression sees them
  // ---------------------------------------------------------------------------

  /** Case folding under the `i` flag, restricted to what matters for an
      ASCII pattern: ASCII letters fold to one case, and (section 15.10.2.8 of
      ECMA-262, Canonicalize) no other character ever folds onto an ASCII one. */
  function FoldCase(c: char): char
  {
    if 'A' <= c <= 'Z' then (c as int + 32) as char else c
  }

  predicate SameIgnoringCase(c: char, d: char) { FoldCase(c) == FoldCase(d) }

  /** `[\w-]`: a word character or a dash. */
  predicate IsIdChar(c: char)
  {
    ('a' <= c <= 'z') || ('A' <= c <= 'Z') || ('0' <= c <= '9') || c == '_' || c == '-'
  }

  /** What `.` refuses to match: the four line terminators. */
  predicate IsLineTerminator(c: char)
  {
    c == '\n' || c == '\r' || c == '\U{2028}' || c == '\U{2029}'
  }

  /** The literal `lit` occurs at position `i` of `s`, ignoring case. */
  predicate LiteralAt(s: string, i: nat, lit: string)
  {
    i + |lit| <= |s| && forall k :: 0 <= k < |lit| ==> SameIgnoringCase(s[i + k], lit[k])
  }

  /** A literal copy of `lit` is an occurrence of it in any case. */
  lemma LiteralHere(s: string, i: nat, lit: string)
    requires i + |lit| <= |s| && s[i..i + |lit|] == lit
    ensures LiteralAt(s, i, lit)
  {
    forall k | 0 <= k < |lit| ensures SameIgnoringCase(s[i + k], lit[k]) {
      assert s[i + k] == s[i..i + |lit|][k];
    }
  }

  /** The end of the maximal `[\w-]` run that starts at `p`. */
  function RunEnd(s: string, p: nat): (e: nat)
    requires p <= |s|
    ensures p <= e <= |s|
    ensures forall k :: p <= k < e ==> IsIdChar(s[k])
    ensures e < |s| ==> !IsIdChar(s[e])
    decreases |s| - p
  {
    if p == |s| || !IsIdChar(s[p]) then p else RunEnd(s, p + 1)
  }

  /** Whether `lit` occurs anywhere in `s`, ignoring case; `from` is where the search starts. */
  function IndexOfIgnoringCase(s: string, lit: string, from: nat): (r: Option<nat>)
    ensures r.Some? ==> from <= r.value && LiteralAt(s, r.value, lit)
    ensures r.Some? ==> forall i :: from <= i < r.value ==> !LiteralAt(s, i, lit)
    ensures r.None? ==> forall i :: from <= i ==> !LiteralAt(s, i, lit)
    decreases |s| - from
  {
    if from + |lit| > |s| then None
    else if LiteralAt(s, from, lit) then Some(from)
    else IndexOfIgnoringCase(s, lit, from + 1)
  }

  /** A title tested against `/kw1|kw2|.../i`: some keyword occurs somewhere in it. */
  predicate MentionsAny(s: string, keywords: seq<string>)
  {
    exists k :: 0 <= k < |keywords| && IndexOfIgnoringCase(s, keywords[k], 0).Some?
  }

  // ---------------------------------------------------------------------------
  // lodash and async helpers
  // ---------------------------------------------------------------------------

  predicate NoDuplicates<T(==)>(s: seq<T>)
  {
    forall i, j :: 0 <= i < j < |s| ==> s[i] != s[j]
  }

  /** `_.unique(s)`: the first occurrence of each element, in order. */
  function Unique(s: seq<string>): (r: seq<string>)
    ensures NoDuplicates(r)
    ensures forall x :: x in r <==> x in s
    ensures |r| <= |s|
  {
    if s == [] then []
    else
      var r := Unique(s[..|s| - 1]);
      assert forall x :: x in s <==> x in s[..|s| - 1] || x == s[|s| - 1] by {
        assert s == s[..|s| - 1] + [s[|s| - 1]];
      }
      if s[|s| - 1] in r then r else r + [s[|s| - 1]]
  }

  /** `_.difference(a, b)`: the elements of `a` that are not in `b`, in order. */
  function Difference(a: seq<string>, b: seq<string>): (r: seq<string>)
    ensures r == [] <==> forall x :: x in a ==> x in b
    ensures forall x :: x in r ==> x in a && x !in b
  {
    if a == [] then []
    else if a[0] in b then
      assert forall x :: x in a ==> x == a[0] || x in a[1..];
      Difference(a[1..], b)
    else [a[0]] + Difference(a[1..], b)
  }

  /** `_.map(_.filter(xs, test), f)` where `test` holds exactly where `f`
      yields a value: the values `f` yields, in order. */
  function FilterMap(xs: seq<string>, f: string -> Option<string>): (r: seq<string>)
    ensures forall y :: y in r <==> exists k :: 0 <= k < |xs| && f(xs[k]) == Some(y)
    ensures |r| <= |xs|
  {
    if xs == [] then []
    else
      var init := xs[..|xs| - 1];
      var last := xs[|xs| - 1];
      assert forall k :: 0 <= k < |init| ==> init[k] == xs[k];
      match f(last)
      case None => FilterMap(init, f)
      case Some(y) => FilterMap(init, f) + [y]
  }

  /** Concatenation of a sequence of sequences. */
  function Flatten<T>(ss: seq<seq<T>>): seq<T>
  {
    if ss == [] then [] else Flatten(ss[..|ss| - 1]) + ss[|ss| - 1]
  }

  /** The payloads `async.cargo(worker, size)` hands its worker when all of
      `s` was pushed at once: consecutive slices of at most `size` items. */
  function Batches<T>(s: seq<T>, size: nat): (r: seq<seq<T>>)
    requires size > 0
    ensures forall i :: 0 <= i < |r| ==> 0 < |r[i]| <= size
    ensures Flatten(r) == s
    decreases |s|
  {
    if s == [] then []
    else if |s| <= size then
      assert Flatten([s]) == Flatten([]) + s;
      [s]
    else
      var rest := Batches(s[size..], size);
      FlattenCons(s[..size], rest);
      assert s == s[..size] + s[size..];
      [s[..size]] + rest
  }

  lemma {:induction false} FlattenCons<T>(b: seq<T>, bs: seq<seq<T>>)
    ensures Flatten([b] + bs) == b + Flatten(bs)
    decreases |bs|
  {
    if bs == [] {
      assert Flatten([b]) == Flatten([]) + b;
    } else {
      var last := bs[|bs| - 1];
      assert ([b] + bs)[..|bs|] == [b] + bs[..|bs| - 1];
      FlattenCons(b, bs[..|bs| - 1]);
    }
  }

  lemma {:induction false} FlattenAppend<T>(bs: seq<seq<T>>, b: seq<T>)
    ensures Flatten(bs + [b]) == Flatten(bs) + b
  {
    assert (bs + [b])[..|bs|] == bs;
  }
}
