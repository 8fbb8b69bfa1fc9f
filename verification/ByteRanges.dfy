/**
  The Range header of a read: parsing with 64-bit numbers that saturate, against the
  single-range rules of section 14.1.2 of RFC 9110 on unbounded ones.
 */
module ByteRanges {
  import opened Strings

  const MAX_INT64: int := 0x7fff_ffff_ffff_ffff

  /** The bytes to read, or an error that no byte of the object is in the range. */
  datatype Selection = Selected(offset: int, length: int) | Unsatisfiable

  // ---------------------------------------------------------------------------
  // Decimal numbers
  // ---------------------------------------------------------------------------

  predicate IsDigit(c: char) {
    '0' <= c <= '9'
  }

  ghost predicate IsNumber(s: string) {
    s != "" && forall i :: 0 <= i < |s| ==> IsDigit(s[i])
  }

  function DigitValue(c: char): (d: int)
    requires IsDigit(c)
    ensures 0 <= d <= 9
  {
    c as int - '0' as int
  }

  /** The number that the digits of s write, of any size. */
  ghost function Value(s: string): nat
    requires forall i :: 0 <= i < |s| ==> IsDigit(s[i])
  {
    if s == "" then 0 else 10 * Value(s[..|s| - 1]) + DigitValue(s[|s| - 1])
  }

  function Min(a: int, b: int): int {
    if a <= b then a else b
  }

  /** Digits as a number, at most MAX_INT64; every intermediate result fits in 64 bits. */
  method ParseDigits(s: string) returns (n: int, ok: bool)
    ensures ok <==> IsNumber(s)
    ensures ok ==> n == Min(Value(s), MAX_INT64)
  {
    n := 0;
    if s == "" {
      return 0, false;
    }
    for i := 0 to |s|
      invariant forall j :: 0 <= j < i ==> IsDigit(s[j])
      invariant n == Min(Value(s[..i]), MAX_INT64)
    {
      var c := s[i];
      if c < '0' || c > '9' {
        return 0, false;
      }
      var d := DigitValue(c);
      assert s[..i + 1][..i] == s[..i];
      if n > (MAX_INT64 - d) / 10 {
        n := MAX_INT64;
        continue;
      }
      assert n * 10 + d <= MAX_INT64;
      n := n * 10 + d;
    }
    assert s[..|s|] == s;
    ok := true;
  }

  function Power(n: nat): (p: nat)
    ensures p >= 1
  {
    if n == 0 then 1 else 10 * Power(n - 1)
  }

  /** The first digit counts for the power of ten of the digits after it. */
  lemma {:induction false} ValueFront(s: string)
    requires IsNumber(s)
    ensures Value(s) == DigitValue(s[0]) * Power(|s| - 1) + Value(s[1..])
    ensures Value(s[1..]) < Power(|s| - 1)
    decreases |s|
  {
    if |s| > 1 {
      var t := s[..|s| - 1];
      ValueFront(t);
      assert s[1..][..|s| - 2] == t[1..];
      assert s[1..][|s| - 2] == s[|s| - 1];
      assert Power(|s| - 1) == 10 * Power(|t| - 1);
      ValueTail(DigitValue(s[0]), Power(|t| - 1), Value(t[1..]), DigitValue(s[|s| - 1]));
    } else {
      assert s[..0] == "" && s[1..] == "";
    }
  }

  lemma ValueTail(first: nat, p: nat, rest: nat, last: nat)
    requires rest < p && last < 10
    ensures 10 * (first * p + rest) + last == first * (10 * p) + (10 * rest + last)
    ensures 10 * rest + last < 10 * p
  {
  }

  /** Of numbers with as many digits, the one that comes first as a string is less. */
  lemma {:induction false} SameLength(a: string, b: string)
    requires |a| == |b| && (forall i :: 0 <= i < |a| ==> IsDigit(a[i])) && (forall i :: 0 <= i < |b| ==> IsDigit(b[i]))
    ensures Less(a, b) <==> Value(a) < Value(b)
  {
    if a != "" {
      ValueFront(a);
      ValueFront(b);
      SameLength(a[1..], b[1..]);
      var p := Power(|a| - 1);
      if a[0] < b[0] {
        FirstDecides(DigitValue(a[0]), DigitValue(b[0]), p, Value(a[1..]), Value(b[1..]));
      } else if b[0] < a[0] {
        FirstDecides(DigitValue(b[0]), DigitValue(a[0]), p, Value(b[1..]), Value(a[1..]));
      }
    }
  }

  lemma {:induction false} FirstDecides(x: nat, y: nat, p: nat, a: nat, b: nat)
    requires x < y && a < p
    ensures x * p + a < y * p + b
  {
    assert y * p == (y - 1) * p + p;
    if x < y - 1 {
      FirstDecides(x, y - 1, p, a, b);
    }
  }

  function TrimZeros(s: string): string {
    if s != "" && s[0] == '0' then TrimZeros(s[1..]) else s
  }

  lemma {:induction false} TrimKeepsValue(s: string)
    requires forall i :: 0 <= i < |s| ==> IsDigit(s[i])
    ensures forall i :: 0 <= i < |TrimZeros(s)| ==> IsDigit(TrimZeros(s)[i])
    ensures Value(TrimZeros(s)) == Value(s)
    ensures TrimZeros(s) != "" ==> TrimZeros(s)[0] != '0'
  {
    if s != "" && s[0] == '0' {
      ValueFront(s);
      TrimKeepsValue(s[1..]);
    }
  }

  lemma {:induction false} PowersGrow(m: nat, n: nat)
    requires m <= n
    ensures Power(m) <= Power(n)
    decreases n
  {
    if m < n {
      PowersGrow(m, n - 1);
    }
  }

  lemma {:induction false} ValueBelow(s: string)
    requires forall i :: 0 <= i < |s| ==> IsDigit(s[i])
    ensures Value(s) < Power(|s|)
  {
    if s != "" {
      ValueBelow(s[..|s| - 1]);
    }
  }

  lemma {:induction false} ValueAbove(s: string)
    requires IsNumber(s) && s[0] != '0'
    ensures Value(s) >= Power(|s| - 1)
  {
    if |s| > 1 {
      ValueAbove(s[..|s| - 1]);
    } else {
      assert s[..0] == "";
    }
  }

  /** Without leading zeros, fewer digits make a smaller number. */
  lemma ShorterIsLess(a: string, b: string)
    requires (forall i :: 0 <= i < |a| ==> IsDigit(a[i])) && IsNumber(b) && b[0] != '0'
    requires |a| < |b|
    ensures Value(a) < Value(b)
  {
    ValueBelow(a);
    ValueAbove(b);
    PowersGrow(|a|, |b| - 1);
  }

  /** Compares numbers of any length by their digits. */
  function DigitsLess(a: string, b: string): (r: bool)
    ensures IsNumber(a) && IsNumber(b) ==> (r <==> Value(a) < Value(b))
  {
    var x, y := TrimZeros(a), TrimZeros(b);
    assert IsNumber(a) && IsNumber(b) ==> ((if |x| != |y| then |x| < |y| else Less(x, y)) <==> Value(a) < Value(b)) by {
      if IsNumber(a) && IsNumber(b) {
        TrimKeepsValue(a);
        TrimKeepsValue(b);
        if |x| < |y| {
          ShorterIsLess(x, y);
        } else if |y| < |x| {
          ShorterIsLess(y, x);
        } else {
          SameLength(x, y);
        }
      }
    }
    if |x| != |y| then |x| < |y| else Less(x, y)
  }

  // ---------------------------------------------------------------------------
  // The rules
  // ---------------------------------------------------------------------------

  predicate IsBlank(c: char) {
    c == ' ' || c == '\t'
  }

  ghost predicate Blank(s: string) {
    forall i :: 0 <= i < |s| ==> s[i] == ' ' || s[i] == '\t'
  }

  /** Unicode's simple case folding, as far as it reaches an ASCII letter: the long s and the Kelvin sign included. */
  function Lower(c: char): char {
    if 'A' <= c <= 'Z' then (c as int + 32) as char
    else if c == '\U{17F}' then 's'
    else if c == '\U{212A}' then 'k'
    else c
  }

  predicate EqualFold(a: string, b: string) {
    |a| == |b| && forall i :: 0 <= i < |a| ==> Lower(a[i]) == Lower(b[i])
  }

  /** The unit is that of bytes, in upper or lower case; the long s is folded too. */
  predicate IsBytes(unit: string) {
    && |unit| == 5
    && (unit[0] == 'b' || unit[0] == 'B') && (unit[1] == 'y' || unit[1] == 'Y') && (unit[2] == 't' || unit[2] == 'T')
    && (unit[3] == 'e' || unit[3] == 'E') && (unit[4] == 's' || unit[4] == 'S' || unit[4] == '\U{17F}')
  }

  lemma FoldsToBytes(unit: string)
    ensures EqualFold(unit, "bytes") <==> IsBytes(unit)
  {
    var b := "bytes";
    assert b[0] == 'b' && b[1] == 'y' && b[2] == 't' && b[3] == 'e' && b[4] == 's';
    if EqualFold(unit, b) {
      assert Lower(unit[0]) == Lower(b[0]) && Lower(unit[1]) == Lower(b[1]) && Lower(unit[2]) == Lower(b[2]);
      assert Lower(unit[3]) == Lower(b[3]) && Lower(unit[4]) == Lower(b[4]);
    }
  }

  /** header is one range of bytes, from first to last; one of them may be left out. */
  ghost predicate IsRange(header: string, first: string, last: string) {
    && (exists left, unit, right ::
          header == left + Core(unit, first, last) + right && Blank(left) && Blank(right) && IsBytes(unit))
    && (first == "" || IsNumber(first)) && (last == "" || IsNumber(last))
    && !(first == "" && last == "")
  }

  function Core(unit: string, first: string, last: string): string {
    unit + "=" + (first + "-" + last)
  }

  /** What the range from first to last selects of size bytes. */
  ghost function Meaning(first: string, last: string, size: int): Selection
    requires size >= 0
    requires (first == "" || IsNumber(first)) && (last == "" || IsNumber(last)) && !(first == "" && last == "")
  {
    if first == "" then
      (if Value(last) == 0 then Unsatisfiable else Selected(size - Min(Value(last), size), Min(Value(last), size)))
    else if last != "" && Value(last) < Value(first) then Selected(0, size)
    else if Value(first) >= size then Unsatisfiable
    else if last == "" then Selected(Value(first), size - Value(first))
    else Selected(Value(first), Min(Value(last), size - 1) - Value(first) + 1)
  }

  /** The range from first to last asks for byte i of size bytes: a range without a first, for the last ones. */
  ghost predicate AsksFor(first: string, last: string, size: int, i: int)
    requires (first == "" || IsNumber(first)) && (last == "" || IsNumber(last)) && !(first == "" && last == "")
  {
    0 <= i < size &&
    if first == "" then i >= size - Value(last) else i >= Value(first) && (last == "" || i <= Value(last))
  }

  /** A range that ends before it begins says nothing. */
  ghost predicate Backwards(first: string, last: string)
    requires (first == "" || IsNumber(first)) && (last == "" || IsNumber(last))
  {
    first != "" && last != "" && Value(last) < Value(first)
  }

  ghost predicate Selects(r: Selection, i: int) {
    r.Selected? && r.offset <= i < r.offset + r.length
  }

  /**
    r selects exactly the bytes that the range asks for, or, if it ends before it begins,
    all of them; and it cannot be satisfied if that is none, unless a suffix of an empty
    object is asked for.
   */
  ghost predicate Answers(first: string, last: string, size: int, r: Selection)
    requires (first == "" || IsNumber(first)) && (last == "" || IsNumber(last)) && !(first == "" && last == "")
  {
    && (r.Selected? ==> 0 <= r.offset && 0 <= r.length && r.offset + r.length <= size)
    && if Backwards(first, last) then r == Selected(0, size)
       else
         && (forall i :: Selects(r, i) <==> AsksFor(first, last, size, i))
         && (r == Unsatisfiable <==>
               (forall i :: !AsksFor(first, last, size, i)) && !(first == "" && Value(last) > 0))
  }

  lemma MeaningAnswers(first: string, last: string, size: int)
    requires size >= 0
    requires (first == "" || IsNumber(first)) && (last == "" || IsNumber(last)) && !(first == "" && last == "")
    ensures Answers(first, last, size, Meaning(first, last, size))
  {
    if first == "" {
      assert Value(last) > 0 && size > 0 ==> AsksFor(first, last, size, size - 1);
    } else if !Backwards(first, last) && Value(first) < size {
      assert AsksFor(first, last, size, Value(first));
    }
  }

  /** The bytes that r selects of body. */
  function Part<T>(body: seq<T>, r: Selection): seq<T>
    requires r.Selected? && 0 <= r.offset && 0 <= r.length && r.offset + r.length <= |body|
  {
    body[r.offset..r.offset + r.length]
  }

  /** The bytes the range asks for: the last ones, all from the first on, or those from the first to the last. */
  ghost function Asked<T>(first: string, last: string, body: seq<T>): seq<T>
    requires (first == "" || IsNumber(first)) && (last == "" || IsNumber(last)) && !(first == "" && last == "")
    requires !Backwards(first, last)
  {
    if first == "" then body[|body| - Min(Value(last), |body|)..]
    else if last == "" then body[Min(Value(first), |body|)..]
    else body[Min(Value(first), |body|)..Min(Value(last) + 1, |body|)]
  }

  lemma AnswersBytes<T>(first: string, last: string, body: seq<T>, r: Selection)
    requires (first == "" || IsNumber(first)) && (last == "" || IsNumber(last)) && !(first == "" && last == "")
    requires Answers(first, last, |body|, r) && r.Selected? && !Backwards(first, last)
    ensures Part(body, r) == Asked(first, last, body)
  {
    if first == "" {
      var low := |body| - Min(Value(last), |body|);
      forall i ensures AsksFor(first, last, |body|, i) <==> low <= i < |body| {
      }
      SameBytes(body, r, low, |body|);
    } else if last == "" {
      var low := Min(Value(first), |body|);
      forall i ensures AsksFor(first, last, |body|, i) <==> low <= i < |body| {
      }
      SameBytes(body, r, low, |body|);
    } else {
      var low, high := Min(Value(first), |body|), Min(Value(last) + 1, |body|);
      forall i ensures AsksFor(first, last, |body|, i) <==> low <= i < high {
      }
      SameBytes(body, r, low, high);
    }
  }

  lemma SameBytes<T>(body: seq<T>, r: Selection, low: int, high: int)
    requires r.Selected? && 0 <= r.offset && 0 <= r.length && r.offset + r.length <= |body|
    requires 0 <= low <= high <= |body|
    requires forall i :: Selects(r, i) <==> low <= i < high
    ensures Part(body, r) == body[low..high]
  {
    if low < high {
      assert Selects(r, low) && Selects(r, high - 1);
      assert !Selects(r, low - 1) && !Selects(r, high);
    } else {
      assert !Selects(r, r.offset);
    }
  }

  // ---------------------------------------------------------------------------
  // Parsing
  // ---------------------------------------------------------------------------

  function TrimLeft(s: string): string {
    if s != "" && IsBlank(s[0]) then TrimLeft(s[1..]) else s
  }

  function TrimRight(s: string): string {
    if s != "" && IsBlank(s[|s| - 1]) then TrimRight(s[..|s| - 1]) else s
  }

  datatype Parts = Parts(before: string, after: string, found: bool)

  /** s around the first c. */
  function Cut(s: string, c: char): (r: Parts)
    ensures r.found ==> s == r.before + [c] + r.after && c !in r.before
    ensures !r.found ==> c !in s
  {
    if s == "" then Parts("", "", false)
    else if s[0] == c then Parts("", s[1..], true)
    else
      var r := Cut(s[1..], c);
      Parts([s[0]] + r.before, r.after, r.found)
  }

  method SuffixRange(last: string, size: int) returns (r: Selection)
    requires 0 <= size <= MAX_INT64
    ensures r == if IsNumber(last) then Meaning("", last, size) else Selected(0, size)
  {
    var suffix, valid := ParseDigits(last);
    if !valid {
      return Selected(0, size);
    }
    if suffix == 0 {
      return Unsatisfiable;
    }
    var n := Min(suffix, size);
    r := Selected(size - n, n);
  }

  method FirstLastRange(firstStr: string, lastStr: string, size: int) returns (r: Selection)
    requires 0 <= size <= MAX_INT64 && firstStr != ""
    ensures r ==
      if IsNumber(firstStr) && (lastStr == "" || IsNumber(lastStr)) then Meaning(firstStr, lastStr, size)
      else Selected(0, size)
  {
    var first, valid := ParseDigits(firstStr);
    if !valid {
      return Selected(0, size);
    }
    var last := -1;
    if lastStr != "" {
      last, valid := ParseDigits(lastStr);
      if !valid || DigitsLess(lastStr, firstStr) {
        return Selected(0, size);
      }
    }
    if first >= size {
      return Unsatisfiable;
    }
    if last < 0 || last >= size {
      last := size - 1;
    }
    r := Selected(first, last - first + 1);
  }

  /** A header that is not one byte range selects the whole object. */
  method ParseByteRange(header: string, size: int) returns (r: Selection)
    requires 0 <= size <= MAX_INT64
    ensures forall first, last :: IsRange(header, first, last) ==> r == Meaning(first, last, size)
    ensures forall first, last :: IsRange(header, first, last) ==> Answers(first, last, size, r)
    ensures (forall first, last :: !IsRange(header, first, last)) ==> r == Selected(0, size)
  {
    AllMean(size);
    var h := TrimRight(TrimLeft(header));
    var unit := Cut(h, '=');
    ParsesAll(header);
    if !unit.found || !EqualFold(unit.before, "bytes") {
      return Selected(0, size);
    }
    var spec := Cut(unit.after, '-');
    if !spec.found {
      return Selected(0, size);
    }
    ParsedIsRange(header);
    if spec.before == "" {
      r := SuffixRange(spec.after, size);
    } else {
      r := FirstLastRange(spec.before, spec.after, size);
    }
  }

  lemma AllMean(size: int)
    requires size >= 0
    ensures forall header, first, last :: IsRange(header, first, last) ==>
      Answers(first, last, size, Meaning(first, last, size))
  {
    forall header, first, last | IsRange(header, first, last)
      ensures Answers(first, last, size, Meaning(first, last, size))
    {
      MeaningAnswers(first, last, size);
    }
  }

  /** Cutting the trimmed header finds the parts of every byte range it is. */
  lemma ParsesAll(header: string)
    ensures forall first, last :: IsRange(header, first, last) ==>
      var unit := Cut(TrimRight(TrimLeft(header)), '=');
      && unit.found && EqualFold(unit.before, "bytes") && Cut(unit.after, '-') == Parts(first, last, true)
  {
    forall first, last | IsRange(header, first, last)
      ensures var unit := Cut(TrimRight(TrimLeft(header)), '=');
        unit.found && EqualFold(unit.before, "bytes") && Cut(unit.after, '-') == Parts(first, last, true)
    {
      var left, unit, right :|
        header == left + Core(unit, first, last) + right && Blank(left) && Blank(right) && IsBytes(unit);
      FoldsToBytes(unit);
      ParsesOne(left, unit, right, first, last);
    }
  }

  lemma ParsesOne(left: string, unit: string, right: string, first: string, last: string)
    requires Blank(left) && Blank(right) && EqualFold(unit, "bytes")
    requires (first == "" || IsNumber(first)) && (last == "" || IsNumber(last))
    ensures TrimRight(TrimLeft(left + Core(unit, first, last) + right)) == Core(unit, first, last)
    ensures Cut(Core(unit, first, last), '=') == Parts(unit, first + "-" + last, true)
    ensures Cut(first + "-" + last, '-') == Parts(first, last, true)
  {
    var core := Core(unit, first, last);
    var b := "bytes";
    assert forall i :: 0 <= i < |unit| ==> Lower(unit[i]) == Lower(b[i]) && unit[i] != '=' && !IsBlank(unit[i]);
    assert core[0] == unit[0];
    assert core[|core| - 1] == (if last == "" then '-' else last[|last| - 1]);
    assert left + core + right == left + (core + right);
    TrimsLeft(left, core + right);
    TrimsRight(core, right);
    CutsAt(unit, '=', first + "-" + last);
    assert unit + "=" + (first + "-" + last) == unit + ['='] + (first + "-" + last);
    CutsAt(first, '-', last);
  }

  lemma {:induction false} TrimsLeft(left: string, s: string)
    requires Blank(left) && s != "" && !IsBlank(s[0])
    ensures TrimLeft(left + s) == s
  {
    if left == "" {
      assert left + s == s;
    } else {
      assert (left + s)[1..] == left[1..] + s;
      TrimsLeft(left[1..], s);
    }
  }

  lemma {:induction false} TrimsRight(s: string, right: string)
    requires Blank(right) && s != "" && !IsBlank(s[|s| - 1])
    ensures TrimRight(s + right) == s
    decreases |right|
  {
    if right == "" {
      assert s + right == s;
    } else {
      assert (s + right)[..|s + right| - 1] == s + right[..|right| - 1];
      TrimsRight(s, right[..|right| - 1]);
    }
  }

  lemma {:induction false} CutsAt(a: string, c: char, b: string)
    requires c !in a
    ensures Cut(a + [c] + b, c) == Parts(a, b, true)
  {
    var s := a + [c] + b;
    if a == "" {
      assert s[0] == c && s[1..] == b;
    } else {
      assert s[0] == a[0] && s[1..] == a[1..] + [c] + b;
      CutsAt(a[1..], c, b);
    }
  }

  lemma {:induction false} TrimLeftSplits(s: string) returns (left: string)
    ensures s == left + TrimLeft(s) && Blank(left)
  {
    left := "";
    if s != "" && IsBlank(s[0]) {
      left := TrimLeftSplits(s[1..]);
      left := [s[0]] + left;
    }
  }

  lemma {:induction false} TrimRightSplits(s: string) returns (right: string)
    ensures s == TrimRight(s) + right && Blank(right)
  {
    right := "";
    if s != "" && IsBlank(s[|s| - 1]) {
      right := TrimRightSplits(s[..|s| - 1]);
      right := right + [s[|s| - 1]];
    }
  }

  /** If the cut parts are numbers, the header is the range between them. */
  lemma ParsedIsRange(header: string)
    ensures var unit := Cut(TrimRight(TrimLeft(header)), '=');
      var spec := Cut(unit.after, '-');
      && unit.found && EqualFold(unit.before, "bytes") && spec.found
      && (spec.before == "" || IsNumber(spec.before)) && (spec.after == "" || IsNumber(spec.after))
      && !(spec.before == "" && spec.after == "")
      ==> IsRange(header, spec.before, spec.after)
  {
    var h := TrimRight(TrimLeft(header));
    var unit := Cut(h, '=');
    var spec := Cut(unit.after, '-');
    var left := TrimLeftSplits(header);
    var right := TrimRightSplits(TrimLeft(header));
    FoldsToBytes(unit.before);
    if unit.found && spec.found {
      assert h == Core(unit.before, spec.before, spec.after);
      assert header == left + Core(unit.before, spec.before, spec.after) + right;
    }
  }

  // ---------------------------------------------------------------------------
  // Ranges that are printed
  // ---------------------------------------------------------------------------

  /** The decimal digits of n. */
  function Print(n: nat): (s: string)
    ensures IsNumber(s) && Value(s) == n
  {
    var last := ['0', '1', '2', '3', '4', '5', '6', '7', '8', '9'][n % 10];
    if n < 10 then
      assert [last][..0] == "";
      [last]
    else
      var s := Print(n / 10) + [last];
      assert s[..|s| - 1] == Print(n / 10);
      s
  }

  function PrintRange(first: nat, last: nat): string {
    "bytes=" + Print(first) + "-" + Print(last)
  }

  /** From first to the end, and the last n. */
  function PrintFrom(first: nat): string {
    "bytes=" + Print(first) + "-"
  }

  function PrintLast(n: nat): string {
    "bytes=-" + Print(n)
  }

  /** A printed range is the range it was printed from. */
  lemma PrintedIsRange(first: nat, last: nat)
    ensures IsRange(PrintRange(first, last), Print(first), Print(last))
  {
    var a, b := Print(first), Print(last);
    assert "bytes=" == "bytes" + "=";
    assert PrintRange(first, last) == Core("bytes", a, b);
    CoreIsRange(a, b);
  }

  lemma PrintedFromIsRange(first: nat)
    ensures IsRange(PrintFrom(first), Print(first), "")
  {
    var a := Print(first);
    assert "bytes=" == "bytes" + "=";
    assert PrintFrom(first) == Core("bytes", a, "");
    CoreIsRange(a, "");
  }

  lemma PrintedLastIsRange(n: nat)
    ensures IsRange(PrintLast(n), "", Print(n))
  {
    var b := Print(n);
    var eq, dash := "=", "-";
    assert "bytes=-" == "bytes" + eq + dash;
    assert PrintLast(n) == Core("bytes", "", b);
    CoreIsRange("", b);
  }

  lemma CoreIsRange(first: string, last: string)
    requires (first == "" || IsNumber(first)) && (last == "" || IsNumber(last)) && !(first == "" && last == "")
    ensures IsRange(Core("bytes", first, last), first, last)
  {
    var left, right: string := "", "";
    assert Core("bytes", first, last) == left + Core("bytes", first, last) + right;
    assert IsBytes("bytes") && Blank(left) && Blank(right);
  }

  /** Reading an object in printed ranges of n bytes, one after another. */
  method ReadInRanges<T>(body: seq<T>, n: nat) returns (read: seq<T>)
    requires n >= 1 && |body| <= MAX_INT64
    ensures read == body
  {
    read := [];
    while |read| < |body|
      invariant read <= body
      decreases |body| - |read|
    {
      var at := |read|;
      PrintedIsRange(at, at + n - 1);
      var r := ParseByteRange(PrintRange(at, at + n - 1), |body|);
      read := read + body[r.offset..r.offset + r.length];
    }
  }

  /** Reads what one range selects of body. */
  method ReadPart<T>(body: seq<T>, header: string, ghost first: string, ghost last: string) returns (part: seq<T>)
    requires |body| <= MAX_INT64 && IsRange(header, first, last) && !Backwards(first, last)
    requires exists i :: AsksFor(first, last, |body|, i)
    ensures part == Asked(first, last, body)
  {
    var r := ParseByteRange(header, |body|);
    assert r != Unsatisfiable;
    AnswersBytes(first, last, body, r);
    part := Part(body, r);
  }

  method ReadFirst<T>(body: seq<T>, n: nat) returns (part: seq<T>)
    requires 0 < n <= |body| <= MAX_INT64
    ensures part == body[..n]
  {
    ghost var a, b := Print(0), Print(n - 1);
    PrintedIsRange(0, n - 1);
    assert a != "" && AsksFor(a, b, |body|, 0);
    part := ReadPart(body, PrintRange(0, n - 1), a, b);
  }

  method ReadFrom<T>(body: seq<T>, n: nat) returns (part: seq<T>)
    requires n < |body| <= MAX_INT64
    ensures part == body[n..]
  {
    ghost var a := Print(n);
    PrintedFromIsRange(n);
    assert a != "" && AsksFor(a, "", |body|, n);
    part := ReadPart(body, PrintFrom(n), a, "");
  }

  method ReadLast<T>(body: seq<T>, n: nat) returns (part: seq<T>)
    requires 0 < n && 0 < |body| <= MAX_INT64
    ensures part == body[|body| - Min(n, |body|)..]
  {
    ghost var b := Print(n);
    PrintedLastIsRange(n);
    assert AsksFor("", b, |body|, |body| - 1);
    part := ReadPart(body, PrintLast(n), "", b);
  }

  /** Reading the first n bytes, and then the rest, as what follows them or as the last bytes. */
  method ReadInTwo<T>(body: seq<T>, n: nat, suffix: bool) returns (read: seq<T>)
    requires 0 < n < |body| <= MAX_INT64
    ensures read == body
  {
    read := ReadFirst(body, n);
    var rest;
    if suffix {
      rest := ReadLast(body, |body| - n);
    } else {
      rest := ReadFrom(body, n);
    }
    read := read + rest;
  }

  /** What a range selects lies within the object, and only an empty object can give an empty selection. */
  lemma SelectionInside(first: string, last: string, size: int)
    requires size >= 0
    requires (first == "" || IsNumber(first)) && (last == "" || IsNumber(last)) && !(first == "" && last == "")
    ensures var r := Meaning(first, last, size);
      r.Selected? ==> 0 <= r.offset && 0 <= r.length && r.offset + r.length <= size && (r.length == 0 ==> size == 0)
    ensures Meaning(first, last, size) == Unsatisfiable <==>
      if first == "" then Value(last) == 0 else Value(first) >= size && (last == "" || Value(first) <= Value(last))
  {
  }
}
