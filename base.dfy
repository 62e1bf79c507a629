/** Shared vocabulary of the model: optional values, the string primitives the
    TypeScript code takes from its runtime (`toLowerCase`, `trim`, `includes`,
    `startsWith`, `indexOf`, `lastIndexOf`, `substring`, `toString`), each
    stated over the alphabet the model covers. */
module Base {

  datatype Option<+T> = None | Some(value: T) {
    function GetOr(default: T): T {
      match this
      case Some(v) => v
      case None => default
    }
  }

  function Max(a: int, b: int): int { if a < b then b else a }
  function Min(a: int, b: int): int { if a < b then a else b }

  // ---------------------------------------------------------------------------
  // Case folding: ASCII A-Z and Cyrillic А-Я, Ё; every other character is kept.

  predicate IsUpper(c: char) {
    ('A' <= c <= 'Z') || ('А' <= c <= 'Я') || c == 'Ё'
  }

  function LowerChar(c: char): (r: char)
    ensures !IsUpper(r)
    ensures !IsUpper(c) ==> r == c
  {
    if 'A' <= c <= 'Z' then (c as int + 32) as char
    else if 'А' <= c <= 'Я' then (c as int + 32) as char
    else if c == 'Ё' then 'ё'
    else c
  }

  /** `s.toLowerCase()` over the modelled alphabet. */
  function Lower(s: string): (r: string)
    ensures |r| == |s|
    ensures forall i :: 0 <= i < |s| ==> r[i] == LowerChar(s[i])
  {
    seq(|s|, i requires 0 <= i < |s| => LowerChar(s[i]))
  }

  predicate IsLowered(s: string) {
    forall i :: 0 <= i < |s| ==> !IsUpper(s[i])
  }

  lemma LowerIdempotent(s: string)
    ensures IsLowered(Lower(s))
    ensures Lower(Lower(s)) == Lower(s)
  {
  }

  // ---------------------------------------------------------------------------
  // Trimming: ASCII white space at both ends.

  predicate IsSpace(c: char) {
    c == ' ' || c == '\t' || c == '\n' || c == '\r' || c == '\U{000B}' || c == '\U{000C}'
  }

  function TrimStart(s: string): (r: string)
    ensures |r| <= |s|
  {
    if |s| > 0 && IsSpace(s[0]) then TrimStart(s[1..]) else s
  }

  /** `trimStart` drops exactly the leading spaces. */
  lemma {:induction false} TrimStartSpec(s: string)
    ensures var r := TrimStart(s);
      && r == s[|s| - |r|..] && (r == [] || !IsSpace(r[0]))
      && forall i :: 0 <= i < |s| - |r| ==> IsSpace(s[i])
  {
    if |s| > 0 && IsSpace(s[0]) {
      TrimStartSpec(s[1..]);
    }
  }

  function TrimEnd(s: string): (r: string)
    ensures |r| <= |s|
  {
    if |s| > 0 && IsSpace(s[|s| - 1]) then TrimEnd(s[..|s| - 1]) else s
  }

  /** `trimEnd` drops exactly the trailing spaces. */
  lemma {:induction false} TrimEndSpec(s: string)
    ensures var r := TrimEnd(s);
      && r == s[..|r|] && (r == [] || !IsSpace(r[|r| - 1]))
      && forall i :: |r| <= i < |s| ==> IsSpace(s[i])
  {
    if |s| > 0 && IsSpace(s[|s| - 1]) {
      TrimEndSpec(s[..|s| - 1]);
    }
  }

  /** `s.trim()`: the longest infix of `s` that neither starts nor ends with a
      space, obtained by dropping spaces only. */
  function Trim(s: string): (r: string)
    ensures |r| <= |s|
  {
    TrimEnd(TrimStart(s))
  }

  /** `trim()` keeps a middle slice of the input, with no space at either
      end, and drops only spaces around it. */
  lemma TrimSpec(s: string)
    ensures var r := Trim(s);
      && (r == [] || (!IsSpace(r[0]) && !IsSpace(r[|r| - 1])))
      && var k := |s| - |TrimStart(s)|;
        && k + |r| <= |s| && r == s[k..k + |r|]
        && (forall i :: 0 <= i < k ==> IsSpace(s[i]))
        && (forall i :: k + |r| <= i < |s| ==> IsSpace(s[i]))
  {
    var t := TrimStart(s);
    var r := TrimEnd(t);
    var k := |s| - |t|;
    TrimStartSpec(s);
    TrimEndSpec(t);
    assert r == s[k..k + |r|] by {
      forall i | 0 <= i < |r| ensures r[i] == s[k + i] {
        assert r[i] == t[i];
        assert t[i] == s[k + i];
      }
    }
    forall i | k + |r| <= i < |s| ensures IsSpace(s[i]) {
      assert s[i] == t[i - k];
    }
  }

  /** A string is blank (`!s.trim()` in the source) exactly when it holds only spaces. */
  lemma {:induction false} TrimEmptyIffBlank(s: string)
    ensures Trim(s) == [] <==> forall i :: 0 <= i < |s| ==> IsSpace(s[i])
  {
    if |s| > 0 && IsSpace(s[0]) {
      TrimEmptyIffBlank(s[1..]);
      assert TrimStart(s) == TrimStart(s[1..]);
      assert forall i :: 1 <= i < |s| ==> s[i] == s[1..][i - 1];
    } else if |s| > 0 {
      assert TrimStart(s) == s;
      TrimEndSpec(s);
    }
  }

  // ---------------------------------------------------------------------------
  // Substring search.

  /** `s.startsWith(t)`. */
  predicate StartsWith(s: string, t: string) {
    |t| <= |s| && s[..|t|] == t
  }

  /** `s.includes(t)`: `t` occurs at some index of `s`. */
  predicate Contains(s: string, t: string) {
    exists i :: 0 <= i <= |s| - |t| && StartsWith(s[i..], t)
  }

  lemma ContainsSelf(s: string)
    ensures Contains(s, s)
  {
    assert StartsWith(s[0..], s);
  }

  lemma StartsWithContains(s: string, t: string)
    requires StartsWith(s, t)
    ensures Contains(s, t)
  {
    assert StartsWith(s[0..], t);
  }

  lemma ContainsEmpty(s: string)
    ensures Contains(s, [])
  {
    assert StartsWith(s[0..], []);
  }

  /** An occurrence that is not at the front lies in the tail. */
  lemma ContainsTail(s: string, t: string)
    requires |s| > 0 && !StartsWith(s, t)
    ensures Contains(s, t) <==> Contains(s[1..], t)
  {
    assert forall i :: 1 <= i <= |s| - |t| ==> s[i..] == s[1..][i - 1..];
    if Contains(s[1..], t) {
      var j :| 0 <= j <= |s[1..]| - |t| && StartsWith(s[1..][j..], t);
      assert s[j + 1..] == s[1..][j..];
    }
  }

  /** Leftmost index of `t` in `s` (`s.indexOf(t)`), `None` for -1. */
  function IndexOf(s: string, t: string): (r: Option<nat>)
    ensures r.Some? ==> r.value <= |s| - |t| && StartsWith(s[r.value..], t)
    ensures r.Some? ==> forall j :: 0 <= j < r.value ==> !StartsWith(s[j..], t)
    ensures r.None? <==> !Contains(s, t)
    decreases |s|
  {
    if |s| < |t| then None
    else if StartsWith(s, t) then Some(0)
    else match IndexOf(s[1..], t)
      case None =>
        assert forall j :: 1 <= j <= |s| - |t| ==> s[j..] == s[1..][j - 1..];
        None
      case Some(k) =>
        assert forall j :: 1 <= j <= k ==> s[j..] == s[1..][j - 1..];
        Some(k + 1)
  }

  /** Index of the last occurrence of `c`, or -1 (`s.lastIndexOf(c)`). */
  function LastIndexOf(s: string, c: char): (r: int)
    ensures -1 <= r < |s|
    ensures r >= 0 ==> s[r] == c
    ensures forall j :: r < j < |s| ==> s[j] != c
  {
    if |s| == 0 then -1
    else if s[|s| - 1] == c then |s| - 1
    else LastIndexOf(s[..|s| - 1], c)
  }

  // ---------------------------------------------------------------------------
  // JavaScript `String.prototype.substring`: both indices are clamped to
  // [0, |s|] and swapped when the first exceeds the second.

  function Clamp(i: int, n: nat): (r: nat)
    ensures r <= n
    ensures 0 <= i <= n ==> r == i
  {
    if i < 0 then 0 else if i > n then n else i
  }

  function JsSubstring(s: string, start: int, end: int): (r: string)
    ensures var a, b := Clamp(start, |s|), Clamp(end, |s|);
      r == if a <= b then s[a..b] else s[b..a]
  {
    var a, b := Clamp(start, |s|), Clamp(end, |s|);
    if a <= b then s[a..b] else s[b..a]
  }

  /** `s.substring(start)`. */
  function JsSubstringFrom(s: string, start: int): (r: string)
    ensures r == s[Clamp(start, |s|)..]
  {
    JsSubstring(s, start, |s|)
  }

  /** `s.substring(0, n)` for a non-negative `n` is the prefix of length `min(n, |s|)`. */
  lemma JsPrefix(s: string, n: nat)
    ensures JsSubstring(s, 0, n) == s[..Min(n, |s|)]
  {
  }

  // ---------------------------------------------------------------------------
  // Decimal rendering of integers (`n.toString()`, template literals).

  function DigitChar(d: nat): (c: char)
    requires d < 10
  {
    ('0' as int + d) as char
  }

  function NatToString(n: nat): (r: string)
    ensures |r| >= 1
    ensures forall i :: 0 <= i < |r| ==> '0' <= r[i] <= '9'
    ensures |r| > 1 ==> r[0] != '0'
  {
    if n < 10 then [DigitChar(n)] else NatToString(n / 10) + [DigitChar(n % 10)]
  }

  function IntToString(n: int): string {
    if n < 0 then "-" + NatToString(-n) else NatToString(n)
  }

  function DigitValue(c: char): nat
    requires '0' <= c <= '9'
  {
    c as int - '0' as int
  }

  function ParseDigits(s: string): nat
    requires forall i :: 0 <= i < |s| ==> '0' <= s[i] <= '9'
  {
    if |s| == 0 then 0 else ParseDigits(s[..|s| - 1]) * 10 + DigitValue(s[|s| - 1])
  }

  lemma {:induction false} ParseNatToString(n: nat)
    ensures ParseDigits(NatToString(n)) == n
  {
    if n >= 10 {
      ParseNatToString(n / 10);
      var s := NatToString(n);
      assert s[..|s| - 1] == NatToString(n / 10);
      assert DigitValue(s[|s| - 1]) == n % 10;
      assert (n / 10) * 10 + n % 10 == n;
    }
  }

  /** Distinct numbers print differently. */
  lemma NatToStringInjective(m: nat, n: nat)
    requires NatToString(m) == NatToString(n)
    ensures m == n
  {
    ParseNatToString(m);
    ParseNatToString(n);
  }

  // ---------------------------------------------------------------------------
  // Sequence helpers.

  /** `xs.filter(x => x !== v)`. */
  function RemoveAll<T(==,!new)>(xs: seq<T>, v: T): (r: seq<T>)
    ensures v !in r
    ensures forall x :: x in r <==> x in xs && x != v
    ensures v !in xs ==> r == xs
    ensures |r| <= |xs|
  {
    if |xs| == 0 then []
    else (if xs[0] == v then [] else [xs[0]]) + RemoveAll(xs[1..], v)
  }

  predicate NoDuplicates<T(==)>(xs: seq<T>) {
    forall i, j :: 0 <= i < j < |xs| ==> xs[i] != xs[j]
  }

  /** Index of the first element equal to `v` (`indexOf`), `None` for -1. */
  function FirstIndex<T(==)>(xs: seq<T>, v: T): (r: Option<nat>)
    ensures r.None? <==> v !in xs
    ensures r.Some? ==> r.value < |xs| && xs[r.value] == v && v !in xs[..r.value]
  {
    if |xs| == 0 then None
    else if xs[0] == v then Some(0)
    else match FirstIndex(xs[1..], v)
      case None => None
      case Some(k) =>
        assert xs[..k + 1] == [xs[0]] + xs[1..][..k];
        Some(k + 1)
  }

  /** The first `v` after a stretch without `v` is the one that follows it. */
  lemma {:induction false} FirstIndexPast<T>(a: seq<T>, b: seq<T>, v: T)
    requires v !in a
    ensures FirstIndex(a + [v] + b, v) == Some(|a|)
  {
    if a != [] {
      assert (a + [v] + b)[1..] == a[1..] + [v] + b;
      FirstIndexPast(a[1..], b, v);
    }
  }

  /** The element at `i` removed (`splice(i, 1)`). */
  function RemoveAt<T>(xs: seq<T>, i: nat): (r: seq<T>)
    requires i < |xs|
    ensures |r| == |xs| - 1
    ensures forall j :: 0 <= j < i ==> r[j] == xs[j]
    ensures forall j :: i <= j < |r| ==> r[j] == xs[j + 1]
  {
    xs[..i] + xs[i + 1..]
  }

  /** `value || fallback` for an optional string: absent and empty fall back. */
  function OrElse(value: Option<string>, fallback: string): (r: string)
    ensures value.Some? && value.value != "" ==> r == value.value
    ensures (value.None? || value.value == "") ==> r == fallback
  {
    if value.Some? && value.value != "" then value.value else fallback
  }

  /** `value ?? fallback`: only an absent value falls back. */
  function Coalesce<T>(value: Option<T>, fallback: T): (r: T)
    ensures value.Some? ==> r == value.value
    ensures value.None? ==> r == fallback
  {
    if value.Some? then value.value else fallback
  }

  /** Property lookup with the source's `props[key] || ''` default. */
  function Prop(props: map<string, string>, key: string): (r: string)
    ensures key in props ==> r == props[key]
    ensures key !in props ==> r == ""
  {
    if key in props then props[key] else ""
  }

  // ---------------------------------------------------------------------------
  // `s.split(sep)` for a one-character separator, and its inverse `join`.

  /** The pieces between separators; an empty string gives `[""]`. */
  function Split(s: string, sep: char): (r: seq<string>)
    ensures |r| >= 1
    ensures forall k :: 0 <= k < |r| ==> sep !in r[k]
    decreases |s|
  {
    match FirstIndex(s, sep)
    case None => [s]
    case Some(i) => [s[..i]] + Split(s[i + 1..], sep)
  }

  /** Two pieces without the separator, joined by it, split back apart. */
  lemma SplitPair(a: string, b: string, sep: char)
    requires sep !in a && sep !in b
    ensures Split(a + [sep] + b, sep) == [a, b]
  {
    var s := a + [sep] + b;
    FirstIndexPast(a, b, sep);
    assert s[..|a|] == a;
    assert s[|a| + 1..] == b;
  }

  function Join(parts: seq<string>, sep: char): string {
    if |parts| == 0 then ""
    else if |parts| == 1 then parts[0]
    else parts[0] + [sep] + Join(parts[1..], sep)
  }

  /** Splitting loses nothing: joining the pieces back gives the input. */
  lemma {:induction false} JoinSplit(s: string, sep: char)
    ensures Join(Split(s, sep), sep) == s
    decreases |s|
  {
    match FirstIndex(s, sep)
    case None =>
    case Some(i) =>
      JoinSplit(s[i + 1..], sep);
      assert Split(s, sep)[1..] == Split(s[i + 1..], sep);
      assert s == s[..i] + [sep] + s[i + 1..];
  }

  /** Pieces without the separator survive a join and a split. */
  lemma {:induction false} SplitJoin(parts: seq<string>, sep: char)
    requires |parts| >= 1
    requires forall k :: 0 <= k < |parts| ==> sep !in parts[k]
    ensures Split(Join(parts, sep), sep) == parts
    decreases |parts|
  {
    if |parts| > 1 {
      var rest := Join(parts[1..], sep);
      SplitJoin(parts[1..], sep);
      FirstIndexPast(parts[0], rest, sep);
      var s := parts[0] + [sep] + rest;
      assert s[..|parts[0]|] == parts[0];
      assert s[|parts[0]| + 1..] == rest;
      assert parts == [parts[0]] + parts[1..];
    }
  }

  /** Appending one piece to a non-empty list extends the joined text. */
  lemma {:induction false} JoinSnoc(parts: seq<string>, last: string, sep: char)
    requires |parts| >= 1
    ensures Join(parts + [last], sep) == Join(parts, sep) + [sep] + last
    decreases |parts|
  {
    if |parts| > 1 {
      assert (parts + [last])[1..] == parts[1..] + [last];
      JoinSnoc(parts[1..], last, sep);
    }
  }

  // ---------------------------------------------------------------------------
  // `xs.filter(keep)`.

  /** `xs` is obtained from `ys` by deleting elements (order kept). */
  predicate IsSubsequence<T(==)>(xs: seq<T>, ys: seq<T>)
    decreases |ys|
  {
    if xs == [] then true
    else if ys == [] then false
    else if xs[0] == ys[0] then IsSubsequence(xs[1..], ys[1..])
    else IsSubsequence(xs, ys[1..])
  }

  function FilterSeq<T>(xs: seq<T>, keep: T -> bool): (r: seq<T>)
    ensures |r| <= |xs|
    ensures forall k :: 0 <= k < |r| ==> keep(r[k])
  {
    if xs == [] then []
    else (if keep(xs[0]) then [xs[0]] else []) + FilterSeq(xs[1..], keep)
  }

  /** One step of the filter on a list given as head and tail. */
  lemma FilterSeqCons<T>(x: T, xs: seq<T>, keep: T -> bool)
    ensures FilterSeq([x] + xs, keep) == (if keep(x) then [x] else []) + FilterSeq(xs, keep)
  {
    assert ([x] + xs)[1..] == xs;
  }

  /** The filter keeps exactly the elements satisfying `keep`, in their order. */
  lemma {:induction false} FilterSeqSpec<T>(xs: seq<T>, keep: T -> bool)
    ensures IsSubsequence(FilterSeq(xs, keep), xs)
    ensures forall x :: x in FilterSeq(xs, keep) <==> x in xs && keep(x)
    ensures forall x :: multiset(FilterSeq(xs, keep))[x] == if keep(x) then multiset(xs)[x] else 0
  {
    if xs != [] {
      FilterSeqSpec(xs[1..], keep);
      var rest := FilterSeq(xs[1..], keep);
      if keep(xs[0]) {
        assert ([xs[0]] + rest)[1..] == rest;
      } else {
        assert [] + rest == rest;
      }
      assert xs == [xs[0]] + xs[1..];
      assert multiset(xs) == multiset{xs[0]} + multiset(xs[1..]);
    }
  }

  /** Filtering with a condition that holds everywhere changes nothing. */
  lemma {:induction false} FilterSeqAll<T>(xs: seq<T>, keep: T -> bool)
    requires forall k :: 0 <= k < |xs| ==> keep(xs[k])
    ensures FilterSeq(xs, keep) == xs
  {
    if xs != [] {
      FilterSeqAll(xs[1..], keep);
    }
  }

  lemma {:induction false} FilterSeqAppend<T>(xs: seq<T>, ys: seq<T>, keep: T -> bool)
    ensures FilterSeq(xs + ys, keep) == FilterSeq(xs, keep) + FilterSeq(ys, keep)
  {
    if xs == [] {
      assert xs + ys == ys;
    } else {
      assert (xs + ys)[1..] == xs[1..] + ys;
      FilterSeqAppend(xs[1..], ys, keep);
    }
  }

  /** Two filters in a row are one filter by the conjunction. */
  lemma {:induction false} FilterSeqCompose<T>(xs: seq<T>, p: T -> bool, q: T -> bool, both: T -> bool)
    requires forall x :: both(x) == (p(x) && q(x))
    ensures FilterSeq(FilterSeq(xs, p), q) == FilterSeq(xs, both)
  {
    if xs != [] {
      FilterSeqCompose(xs[1..], p, q, both);
      if p(xs[0]) {
        assert ([xs[0]] + FilterSeq(xs[1..], p))[1..] == FilterSeq(xs[1..], p);
      } else {
        assert [] + FilterSeq(xs[1..], p) == FilterSeq(xs[1..], p);
      }
    }
  }

  /** Filters that agree on the elements give the same result. */
  lemma {:induction false} FilterSeqSame<T>(xs: seq<T>, p: T -> bool, q: T -> bool)
    requires forall k :: 0 <= k < |xs| ==> p(xs[k]) == q(xs[k])
    ensures FilterSeq(xs, p) == FilterSeq(xs, q)
  {
    if xs != [] {
      FilterSeqSame(xs[1..], p, q);
    }
  }

  /** Appending to both sides, or to the longer one only, keeps a subsequence. */
  lemma {:induction false} SubsequenceExtend<T>(xs: seq<T>, ys: seq<T>, y: T, both: bool)
    requires IsSubsequence(xs, ys)
    ensures IsSubsequence(xs + (if both then [y] else []), ys + [y])
    decreases |ys|
  {
    if xs == [] {
      assert xs + (if both then [y] else []) == (if both then [y] else []);
      if both {
        SubsequenceOfSingle([y], ys + [y]);
      }
    } else if xs[0] == ys[0] {
      assert (xs + (if both then [y] else []))[1..] == xs[1..] + (if both then [y] else []);
      assert (ys + [y])[1..] == ys[1..] + [y];
      SubsequenceExtend(xs[1..], ys[1..], y, both);
    } else {
      assert (ys + [y])[1..] == ys[1..] + [y];
      SubsequenceExtend(xs, ys[1..], y, both);
    }
  }

  lemma {:induction false} SubsequenceOfSingle<T>(xs: seq<T>, ys: seq<T>)
    requires |xs| == 1 && |ys| > 0 && xs[0] == ys[|ys| - 1]
    ensures IsSubsequence(xs, ys)
    decreases |ys|
  {
    if xs[0] != ys[0] {
      SubsequenceOfSingle(xs, ys[1..]);
    } else {
      assert xs[1..] == [];
    }
  }
}
