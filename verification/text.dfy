/**
 * The JavaScript string operations the script relies on: `Array.prototype.join`,
 * `String.prototype.replace` with a string pattern (first occurrence only) and
 * the decimal rendering of non-negative integer numbers.  `Split` is the inverse
 * of `Join` and is used to state what a joined string still carries.
 */
module Text {
  import opened Wrappers

  /** `parts.join(sep)`: the parts with `sep` between neighbours; "" for no parts. */
  function Join(parts: seq<string>, sep: string): string
  {
    if |parts| == 0 then ""
    else if |parts| == 1 then parts[0]
    else parts[0] + sep + Join(parts[1..], sep)
  }

  lemma JoinTwo(a: string, b: string, sep: string)
    ensures Join([a, b], sep) == a + sep + b
  {
    assert [a, b][1..] == [b];
  }

  /** Cuts `s` at every `sep`; there is always at least one field. */
  function Split(s: string, sep: char): (fields: seq<string>)
    ensures |fields| >= 1
    decreases |s|
  {
    if |s| == 0 then [""]
    else
      var rest := Split(s[1..], sep);
      if s[0] == sep then [""] + rest
      else [[s[0]] + rest[0]] + rest[1..]
  }

  lemma {:induction false} SplitWithout(a: string, sep: char)
    requires sep !in a
    ensures Split(a, sep) == [a]
    decreases |a|
  {
    if |a| > 0 {
      SplitWithout(a[1..], sep);
      assert [a[0]] + a[1..] == a;
    }
  }

  lemma {:induction false} SplitAtFirst(a: string, sep: char, b: string)
    requires sep !in a
    ensures Split(a + [sep] + b, sep) == [a] + Split(b, sep)
    decreases |a|
  {
    var s := a + [sep] + b;
    if |a| == 0 {
      assert s == [sep] + b;
      assert s[1..] == b;
    } else {
      assert s[1..] == a[1..] + [sep] + b;
      SplitAtFirst(a[1..], sep, b);
      assert [a[0]] + a[1..] == a;
    }
  }

  /** Splitting a join at its one-character separator gives the parts back. */
  lemma {:induction false} SplitJoin(parts: seq<string>, sep: char)
    requires |parts| >= 1
    requires forall i :: 0 <= i < |parts| ==> sep !in parts[i]
    ensures Split(Join(parts, [sep]), sep) == parts
    decreases |parts|
  {
    if |parts| == 1 {
      SplitWithout(parts[0], sep);
    } else {
      SplitJoin(parts[1..], sep);
      SplitAtFirst(parts[0], sep, Join(parts[1..], [sep]));
      assert [parts[0]] + parts[1..] == parts;
    }
  }

  /** A character that is neither the separator nor in any part is not in the join. */
  lemma {:induction false} JoinWithout(parts: seq<string>, sep: char, c: char)
    requires c != sep
    requires forall i :: 0 <= i < |parts| ==> c !in parts[i]
    ensures c !in Join(parts, [sep])
    decreases |parts|
  {
    if |parts| > 1 {
      JoinWithout(parts[1..], sep, c);
    }
  }

  /** A join of separator-free parts holds exactly one separator fewer than it has parts. */
  lemma {:induction false} JoinSeparatorCount(parts: seq<string>, sep: char)
    requires |parts| >= 1
    requires forall i :: 0 <= i < |parts| ==> sep !in parts[i]
    ensures multiset(Join(parts, [sep]))[sep] == |parts| - 1
    decreases |parts|
  {
    if |parts| == 1 {
      assert sep !in multiset(parts[0]);
    } else {
      JoinSeparatorCount(parts[1..], sep);
      assert sep !in multiset(parts[0]);
      assert Join(parts, [sep]) == parts[0] + [sep] + Join(parts[1..], [sep]);
    }
  }

  /** `p` occurs in `s` at index `i`. */
  predicate OccursAt(s: string, p: string, i: nat)
  {
    i + |p| <= |s| && s[i..i + |p|] == p
  }

  /** `s.indexOf(p, i)`: the first index at or after `i` where `p` occurs, if any. */
  function FindFrom(s: string, p: string, i: nat): (r: Option<nat>)
    ensures r.Some? ==> i <= r.value && OccursAt(s, p, r.value)
    ensures r.Some? ==> forall j :: i <= j < r.value ==> !OccursAt(s, p, j)
    ensures r.None? ==> forall j :: i <= j ==> !OccursAt(s, p, j)
    decreases |s| - i
  {
    if i + |p| > |s| then None
    else if OccursAt(s, p, i) then Some(i)
    else FindFrom(s, p, i + 1)
  }

  /** Appending text after a string keeps its first occurrence of a pattern first. */
  lemma FirstOccurrenceKept(u: string, v: string, p: string, i: nat)
    requires FindFrom(u, p, 0) == Some(i)
    ensures FindFrom(u + v, p, 0) == Some(i)
  {
    var s := u + v;
    assert s[i..i + |p|] == u[i..i + |p|];
    assert OccursAt(s, p, i);
    match FindFrom(s, p, 0)
    case None =>
    case Some(j) =>
      assert j <= i;
      assert s[j..j + |p|] == u[j..j + |p|];
      assert OccursAt(u, p, j);
  }

  /** `s.replace(p, rep)` with a string pattern: only the first occurrence is replaced. */
  function ReplaceFirst(s: string, p: string, rep: string): string
  {
    match FindFrom(s, p, 0)
    case None => s
    case Some(i) => s[..i] + rep + s[i + |p|..]
  }

  function DigitChar(d: nat): (c: char)
    requires d < 10
  {
    (48 + d) as char
  }

  predicate IsDigits(s: string)
  {
    forall k :: 0 <= k < |s| ==> '0' <= s[k] <= '9'
  }

  /**
   * `String(n)` for a non-negative integer number below 10^21, where JavaScript
   * still writes plain digits: its decimal digits, no leading zero.
   */
  function Decimal(n: nat): (r: string)
    ensures |r| >= 1 && IsDigits(r)
    ensures |r| > 1 ==> r[0] != '0'
    decreases n
  {
    if n < 10 then [DigitChar(n)] else Decimal(n / 10) + [DigitChar(n % 10)]
  }

  /** The number a string of decimal digits denotes. */
  function DecimalValue(s: string): nat
    requires IsDigits(s)
  {
    if |s| == 0 then 0
    else 10 * DecimalValue(s[..|s| - 1]) + (s[|s| - 1] as int - 48)
  }

  /** The decimal rendering denotes the number it was made from. */
  lemma {:induction false} DecimalRoundTrip(n: nat)
    ensures DecimalValue(Decimal(n)) == n
    decreases n
  {
    if n >= 10 {
      DecimalRoundTrip(n / 10);
      var r := Decimal(n);
      assert r[..|r| - 1] == Decimal(n / 10);
    }
  }
}
