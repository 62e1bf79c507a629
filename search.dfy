/** Fuzzy product search of src/lib/search.ts: the two character tables, the
    edit distance and the `advancedSearch` filter. */
module Search {
  import opened Base

  // ---------------------------------------------------------------------------
  // Cyrillic -> Latin transliteration table (`russianToEnglish`).

  function TranslitEntry(c: char): Option<string> {
    match c
    case 'а' => Some("a")   case 'б' => Some("b")   case 'в' => Some("v")   case 'г' => Some("g")
    case 'д' => Some("d")   case 'е' => Some("e")   case 'ё' => Some("e")   case 'ж' => Some("zh")
    case 'з' => Some("z")   case 'и' => Some("i")   case 'й' => Some("y")   case 'к' => Some("k")
    case 'л' => Some("l")   case 'м' => Some("m")   case 'н' => Some("n")   case 'о' => Some("o")
    case 'п' => Some("p")   case 'р' => Some("r")   case 'с' => Some("s")   case 'т' => Some("t")
    case 'у' => Some("u")   case 'ф' => Some("f")   case 'х' => Some("h")   case 'ц' => Some("ts")
    case 'ч' => Some("ch")  case 'ш' => Some("sh")  case 'щ' => Some("sch") case 'ъ' => Some("")
    case 'ы' => Some("y")   case 'ь' => Some("")    case 'э' => Some("e")   case 'ю' => Some("yu")
    case 'я' => Some("ya")
    case 'А' => Some("A")   case 'Б' => Some("B")   case 'В' => Some("V")   case 'Г' => Some("G")
    case 'Д' => Some("D")   case 'Е' => Some("E")   case 'Ё' => Some("E")   case 'Ж' => Some("Zh")
    case 'З' => Some("Z")   case 'И' => Some("I")   case 'Й' => Some("Y")   case 'К' => Some("K")
    case 'Л' => Some("L")   case 'М' => Some("M")   case 'Н' => Some("N")   case 'О' => Some("O")
    case 'П' => Some("P")   case 'Р' => Some("R")   case 'С' => Some("S")   case 'Т' => Some("T")
    case 'У' => Some("U")   case 'Ф' => Some("F")   case 'Х' => Some("H")   case 'Ц' => Some("Ts")
    case 'Ч' => Some("Ch")  case 'Ш' => Some("Sh")  case 'Щ' => Some("Sch") case 'Ъ' => Some("")
    case 'Ы' => Some("Y")   case 'Ь' => Some("")    case 'Э' => Some("E")   case 'Ю' => Some("Yu")
    case 'Я' => Some("Ya")
    case _ => None
  }

  /** Every entry of the table is made of ASCII letters. */
  predicate IsAsciiLetter(c: char) { ('a' <= c <= 'z') || ('A' <= c <= 'Z') }

  predicate LatinEntry(e: string) {
    |e| <= 3 && forall k :: 0 <= k < |e| ==> IsAsciiLetter(e[k])
  }

  predicate LowerKey(c: char) { 'а' <= c <= 'я' || c == 'ё' }

  predicate UpperKey(c: char) { 'А' <= c <= 'Я' || c == 'Ё' }

  lemma TranslitEntryLatin(c: char)
    ensures TranslitEntry(c).Some? ==> forall k :: 0 <= k < |TranslitEntry(c).value| ==> IsAsciiLetter(TranslitEntry(c).value[k])
    ensures TranslitEntry(c).Some? ==> |TranslitEntry(c).value| <= 3
    ensures IsAsciiLetter(c) ==> TranslitEntry(c).None?
  {
    if LowerKey(c) {
      LowerEntriesLatin(c);
    } else if UpperKey(c) {
      UpperEntriesLatin(c);
    } else {
      KeysAreCyrillic(c);
    }
  }

  lemma KeysAreCyrillic(c: char)
    requires !LowerKey(c) && !UpperKey(c)
    ensures TranslitEntry(c).None?
  {
  }

  lemma LowerEntriesLatin(c: char)
    requires LowerKey(c)
    ensures TranslitEntry(c).Some? && LatinEntry(TranslitEntry(c).value)
  {
  }

  lemma UpperEntriesLatin(c: char)
    requires UpperKey(c)
    ensures TranslitEntry(c).Some? && LatinEntry(TranslitEntry(c).value)
  {
  }

  /** One character of `transliterate`: `russianToEnglish[char] || char`. An
      entry that is the empty string is falsy, so ъ, ь, Ъ, Ь stay as they are. */
  function TranslitChar(c: char): (r: string)
    ensures |r| >= 1
  {
    match TranslitEntry(c)
    case Some(e) => if e != "" then e else [c]
    case None => [c]
  }

  /** `transliterate(text)`: each character replaced by `TranslitChar`. */
  function Transliterate(s: string): (r: string)
    ensures |r| >= |s|
    ensures s == [] ==> r == []
  {
    if s == [] then [] else TranslitChar(s[0]) + Transliterate(s[1..])
  }

  lemma {:induction false} TransliterateAppend(s: string, t: string)
    ensures Transliterate(s + t) == Transliterate(s) + Transliterate(t)
  {
    if s != [] {
      assert (s + t)[1..] == s[1..] + t;
      TransliterateAppend(s[1..], t);
    } else {
      assert s + t == t;
    }
  }

  /** A character that `transliterate` leaves as it is. */
  predicate TranslitFixed(c: char) {
    TranslitChar(c) == [c]
  }

  lemma FixedChars(c: char)
    ensures TranslitEntry(c).None? ==> TranslitFixed(c)
    ensures c in "ъьЪЬ" ==> TranslitFixed(c)
    ensures IsAsciiLetter(c) ==> TranslitFixed(c)
  {
  }

  /** `transliterate` is the identity exactly on strings of fixed characters;
      in particular on strings holding no Cyrillic key of the table. */
  lemma {:induction false} TransliterateIdentity(s: string)
    requires forall k :: 0 <= k < |s| ==> TranslitFixed(s[k])
    ensures Transliterate(s) == s
  {
    if s != [] {
      TransliterateIdentity(s[1..]);
      assert s == [s[0]] + s[1..];
    }
  }

  lemma {:induction false} TransliterateOutputFixed(s: string)
    ensures forall k :: 0 <= k < |Transliterate(s)| ==> TranslitFixed(Transliterate(s)[k])
  {
    if s != [] {
      TransliterateOutputFixed(s[1..]);
      var head := TranslitChar(s[0]);
      TranslitEntryLatin(s[0]);
      forall k | 0 <= k < |head| ensures TranslitFixed(head[k]) {
        FixedChars(head[k]);
        if head != [s[0]] {
          assert IsAsciiLetter(head[k]);
        }
      }
    }
  }

  /** `transliterate(transliterate(s)) == transliterate(s)` for every string:
      its output holds only Latin letters and the characters it keeps. */
  lemma TransliterateIdempotent(s: string)
    ensures Transliterate(Transliterate(s)) == Transliterate(s)
  {
    TransliterateOutputFixed(s);
    TransliterateIdentity(Transliterate(s));
  }

  /** No Cyrillic key of the table: the string passes through unchanged. */
  lemma TransliterateNoCyrillic(s: string)
    requires forall k :: 0 <= k < |s| ==> TranslitEntry(s[k]).None?
    ensures Transliterate(s) == s
    ensures Transliterate(Transliterate(s)) == Transliterate(s)
  {
    forall k | 0 <= k < |s| ensures TranslitFixed(s[k]) { FixedChars(s[k]); }
    TransliterateIdentity(s);
  }

  // ---------------------------------------------------------------------------
  // QWERTY -> ЙЦУКЕН keyboard layout table (`layoutMap`).

  function LayoutEntry(c: char): Option<char> {
    match c
    case 'q' => Some('й') case 'w' => Some('ц') case 'e' => Some('у') case 'r' => Some('к')
    case 't' => Some('е') case 'y' => Some('н') case 'u' => Some('г') case 'i' => Some('ш')
    case 'o' => Some('щ') case 'p' => Some('з') case '[' => Some('х') case ']' => Some('ъ')
    case 'a' => Some('ф') case 's' => Some('ы') case 'd' => Some('в') case 'f' => Some('а')
    case 'g' => Some('п') case 'h' => Some('р') case 'j' => Some('о') case 'k' => Some('л')
    case 'l' => Some('д') case ';' => Some('ж') case '\'' => Some('э')
    case 'z' => Some('я') case 'x' => Some('ч') case 'c' => Some('с') case 'v' => Some('м')
    case 'b' => Some('и') case 'n' => Some('т') case 'm' => Some('ь') case ',' => Some('б')
    case '.' => Some('ю') case '/' => Some('.')
    case 'Q' => Some('Й') case 'W' => Some('Ц') case 'E' => Some('У') case 'R' => Some('К')
    case 'T' => Some('Е') case 'Y' => Some('Н') case 'U' => Some('Г') case 'I' => Some('Ш')
    case 'O' => Some('Щ') case 'P' => Some('З') case '{' => Some('Х') case '}' => Some('Ъ')
    case 'A' => Some('Ф') case 'S' => Some('Ы') case 'D' => Some('В') case 'F' => Some('А')
    case 'G' => Some('П') case 'H' => Some('Р') case 'J' => Some('О') case 'K' => Some('Л')
    case 'L' => Some('Д') case ':' => Some('Ж') case '"' => Some('Э')
    case 'Z' => Some('Я') case 'X' => Some('Ч') case 'C' => Some('С') case 'V' => Some('М')
    case 'B' => Some('И') case 'N' => Some('Т') case 'M' => Some('Ь') case '<' => Some('Б')
    case '>' => Some('Ю') case '?' => Some(',')
    case _ => None
  }

  /** `layoutMap[char] || char`: no entry is empty, so a mapped character is
      always replaced. */
  function LayoutChar(c: char): char {
    match LayoutEntry(c)
    case Some(d) => d
    case None => c
  }

  /** `fixLayout(text)`: one character out for every character in. */
  function FixLayout(s: string): (r: string)
    ensures |r| == |s|
    ensures forall k :: 0 <= k < |s| ==> r[k] == LayoutChar(s[k])
    ensures forall k :: 0 <= k < |s| && LayoutEntry(s[k]).None? ==> r[k] == s[k]
    ensures forall k :: 0 <= k < |s| && LayoutEntry(s[k]).Some? ==> r[k] == LayoutEntry(s[k]).value
  {
    seq(|s|, k requires 0 <= k < |s| => LayoutChar(s[k]))
  }

  /** Every key of the layout table is a printable ASCII character. */
  lemma LayoutKeysAscii(c: char)
    requires c > '~'
    ensures LayoutEntry(c).None?
  {
  }

  lemma LayoutLowerLetters(c: char)
    requires 'a' <= c <= 'z'
    ensures LayoutEntry(c).Some? && LowerKey(LayoutEntry(c).value)
  {
  }

  lemma LayoutUpperLetters(c: char)
    requires 'A' <= c <= 'Z'
    ensures LayoutEntry(c).Some? && UpperKey(LayoutEntry(c).value)
  {
  }

  /** A word typed on the Latin layout comes out as Cyrillic letters of the
      same case. */
  lemma FixLayoutLettersToCyrillic(s: string)
    requires forall k :: 0 <= k < |s| ==> IsAsciiLetter(s[k])
    ensures forall k :: 0 <= k < |s| ==> ('a' <= s[k] <= 'z' ==> LowerKey(FixLayout(s)[k]))
    ensures forall k :: 0 <= k < |s| ==> ('A' <= s[k] <= 'Z' ==> UpperKey(FixLayout(s)[k]))
  {
    forall k | 0 <= k < |s| && 'a' <= s[k] <= 'z' ensures LowerKey(FixLayout(s)[k]) {
      LayoutLowerLetters(s[k]);
    }
    forall k | 0 <= k < |s| && 'A' <= s[k] <= 'Z' ensures UpperKey(FixLayout(s)[k]) {
      LayoutUpperLetters(s[k]);
    }
  }

  /** Text already typed outside ASCII (Cyrillic, for one) is left as it is. */
  lemma FixLayoutKeepsNonAscii(s: string)
    requires forall k :: 0 <= k < |s| ==> s[k] > '~'
    ensures FixLayout(s) == s
  {
    forall k | 0 <= k < |s| ensures FixLayout(s)[k] == s[k] {
      LayoutKeysAscii(s[k]);
    }
  }

  /** `fixLayout` is not idempotent: '/' becomes '.', which is itself a key
      and becomes 'ю' on a second pass. */
  lemma FixLayoutNotIdempotent()
    ensures FixLayout("/") == "."
    ensures FixLayout(FixLayout("/")) == "ю"
  {
  }

  // ---------------------------------------------------------------------------
  // Edit distance.

  function Min3(x: nat, y: nat, z: nat): nat {
    Min(x, Min(y, z))
  }

  /** The recurrence that `levenshteinDistance(a, b)` tabulates: entry [i][j]
      of its matrix is `Lev(a[..j], b[..i])`. When the last characters agree
      the code copies the diagonal entry; otherwise it takes one plus the least
      of substitution, insertion and deletion. */
  function Lev(a: string, b: string): (d: nat)
    ensures |a| - |b| <= d && |b| - |a| <= d
    ensures d <= Max(|a|, |b|)
    decreases |a| + |b|
  {
    if |a| == 0 then |b|
    else if |b| == 0 then |a|
    else if a[|a| - 1] == b[|b| - 1] then Lev(a[..|a| - 1], b[..|b| - 1])
    else 1 + Min3(Lev(a[..|a| - 1], b[..|b| - 1]), Lev(a[..|a| - 1], b), Lev(a, b[..|b| - 1]))
  }

  lemma LevEmpty(a: string, b: string)
    ensures Lev(a, "") == |a|
    ensures Lev("", b) == |b|
  {
  }

  lemma {:induction false} LevSelf(a: string)
    ensures Lev(a, a) == 0
    decreases |a|
  {
    if |a| > 0 {
      LevSelf(a[..|a| - 1]);
    }
  }

  lemma {:induction false} LevSymmetric(a: string, b: string)
    ensures Lev(a, b) == Lev(b, a)
    decreases |a| + |b|
  {
    if |a| > 0 && |b| > 0 {
      LevSymmetric(a[..|a| - 1], b[..|b| - 1]);
      if a[|a| - 1] != b[|b| - 1] {
        LevSymmetric(a[..|a| - 1], b);
        LevSymmetric(a, b[..|b| - 1]);
      }
    }
  }

  /** Distance zero means equal strings. */
  lemma {:induction false} LevZero(a: string, b: string)
    requires Lev(a, b) == 0
    ensures a == b
    decreases |a| + |b|
  {
    if |a| > 0 && |b| > 0 {
      LevZero(a[..|a| - 1], b[..|b| - 1]);
      assert a == a[..|a| - 1] + [a[|a| - 1]];
      assert b == b[..|b| - 1] + [b[|b| - 1]];
    }
  }

  /** Entry [r][c] of the matrix: the distance between the first c characters
      of `a` and the first r characters of `b`. */
  function Cell(a: string, b: string, r: nat, c: nat): nat
    requires r <= |b| && c <= |a|
  {
    Lev(a[..c], b[..r])
  }

  /** `levenshteinDistance(a, b)`: the early returns for empty strings, then the
      (|b|+1) x (|a|+1) matrix, first column and first row, then row by row. */
  method LevenshteinDistance(a: string, b: string) returns (d: nat)
    ensures d == Lev(a, b)
  {
    if |a| == 0 { return |b|; }
    if |b| == 0 { return |a|; }
    var matrix := new nat[|b| + 1, |a| + 1];
    var i := 0;
    while i <= |b|
      invariant 0 <= i <= |b| + 1
      invariant forall r :: 0 <= r < i ==> matrix[r, 0] == r
    {
      matrix[i, 0] := i;
      i := i + 1;
    }
    var j := 0;
    while j <= |a|
      invariant 0 <= j <= |a| + 1
      invariant forall r :: 1 <= r <= |b| ==> matrix[r, 0] == r
      invariant forall c :: 0 <= c < j ==> matrix[0, c] == c
    {
      matrix[0, j] := j;
      j := j + 1;
    }
    forall c | 0 <= c <= |a| ensures matrix[0, c] == Cell(a, b, 0, c) {
      LevEmpty(a[..c], b[..0]);
    }
    i := 1;
    while i <= |b|
      invariant 1 <= i <= |b| + 1
      invariant forall r, c :: 0 <= r < i && 0 <= c <= |a| ==> matrix[r, c] == Cell(a, b, r, c)
      invariant forall r :: i <= r <= |b| ==> matrix[r, 0] == r
    {
      FillRow(matrix, a, b, i);
      i := i + 1;
    }
    assert a[..|a|] == a && b[..|b|] == b;
    d := matrix[|b|, |a|];
  }

  /** The inner loop for row i, given rows 0..i-1 and the first column. */
  method FillRow(matrix: array2<nat>, a: string, b: string, i: nat)
    requires matrix.Length0 == |b| + 1 && matrix.Length1 == |a| + 1
    requires 1 <= i <= |b|
    requires forall r, c :: 0 <= r < i && 0 <= c <= |a| ==> matrix[r, c] == Cell(a, b, r, c)
    requires forall r :: i <= r <= |b| ==> matrix[r, 0] == r
    modifies matrix
    ensures forall r, c :: 0 <= r <= i && 0 <= c <= |a| ==> matrix[r, c] == Cell(a, b, r, c)
    ensures forall r :: i < r <= |b| ==> matrix[r, 0] == r
  {
    LevEmpty(a[..0], b[..i]);
    var j := 1;
    while j <= |a|
      invariant 1 <= j <= |a| + 1
      invariant forall r, c :: 0 <= r < i && 0 <= c <= |a| ==> matrix[r, c] == Cell(a, b, r, c)
      invariant forall c :: 0 <= c < j ==> matrix[i, c] == Cell(a, b, i, c)
      invariant forall r :: i < r <= |b| ==> matrix[r, 0] == r
    {
      LevStep(a, b, j, i);
      if b[i - 1] == a[j - 1] {
        matrix[i, j] := matrix[i - 1, j - 1];
      } else {
        matrix[i, j] := Min3(matrix[i - 1, j - 1] + 1, matrix[i, j - 1] + 1, matrix[i - 1, j] + 1);
      }
      j := j + 1;
    }
  }

  /** One cell of the matrix in terms of its three neighbours. */
  lemma LevStep(a: string, b: string, j: nat, i: nat)
    requires 1 <= j <= |a| && 1 <= i <= |b|
    ensures b[i - 1] == a[j - 1] ==> Cell(a, b, i, j) == Cell(a, b, i - 1, j - 1)
    ensures b[i - 1] != a[j - 1] ==>
      Cell(a, b, i, j) == Min3(Cell(a, b, i - 1, j - 1) + 1, Cell(a, b, i, j - 1) + 1, Cell(a, b, i - 1, j) + 1)
  {
    assert a[..j][..j - 1] == a[..j - 1];
    assert b[..i][..i - 1] == b[..i - 1];
  }

  // ---------------------------------------------------------------------------
  // advancedSearch.

  /** The fields of a catalogue product that the search reads. */
  datatype Product = Product(name: string, skus: seq<string>)

  /** Prefix rule: distance from the query to the name's first |q| characters
      is at most 2 and below |q|/2 (written `2*d < |q|`). */
  predicate PrefixClose(q: string, name: string) {
    var d := Lev(q, JsSubstring(name, 0, |q|));
    d <= 2 && 2 * d < |q|
  }

  /** Partial rule: the name contains the query cut to `max(2, |q|-1)` characters. */
  predicate PartialHit(q: string, name: string) {
    Contains(name, JsSubstring(q, 0, Max(2, |q| - 1)))
  }

  /** Sliding-window rule: some window of the name, as long as the query, is
      within distance 1 of it. */
  predicate WindowClose(q: string, name: string) {
    exists i :: 0 <= i <= |name| - |q| && WindowDistance(q, name, i) <= 1
  }

  /** Distance from the query to the window of the name starting at i. */
  function WindowDistance(q: string, name: string, i: nat): nat
    requires i + |q| <= |name|
  {
    Lev(q, name[i..i + |q|])
  }

  /** The query variants computed once per call. */
  function TranslitQuery(term: string): string { Lower(Transliterate(term)) }
  function FixedQuery(term: string): string { Lower(FixLayout(term)) }

  /** Exact rules on the name: plain, transliterated, layout-fixed. */
  predicate NameHit(p: Product, term: string) {
    || Contains(Lower(p.name), term)
    || Contains(Lower(Transliterate(p.name)), TranslitQuery(term))
    || Contains(Lower(p.name), FixedQuery(term))
  }

  /** Exact rule on the SKUs: some lowered SKU contains the term or its layout fix. */
  predicate SkuHit(skus: seq<string>, term: string) {
    exists k :: 0 <= k < |skus| && (Contains(Lower(skus[k]), term) || Contains(Lower(skus[k]), FixedQuery(term)))
  }

  /** The fuzzy tier, on plain and transliterated names only. */
  predicate FuzzyHit(p: Product, term: string) {
    var name := Lower(p.name);
    var nameT := Lower(Transliterate(p.name));
    var termT := TranslitQuery(term);
    || PrefixClose(term, name)
    || PrefixClose(termT, nameT)
    || PartialHit(term, name)
    || PartialHit(termT, nameT)
    || WindowClose(term, name)
    || WindowClose(termT, nameT)
  }

  /** The filter callback of `advancedSearch` for an already lowered and trimmed term. */
  predicate Matches(p: Product, term: string) {
    NameHit(p, term) || SkuHit(p.skus, term) || (|term| >= 3 && FuzzyHit(p, term))
  }

  /** The normalised query: `query.toLowerCase().trim()`. */
  function SearchTerm(query: string): string { Trim(Lower(query)) }

  /** `advancedSearch(products, query)`. */
  function AdvancedSearch(products: seq<Product>, query: string): (r: seq<Product>)
    ensures |SearchTerm(query)| < 2 ==> r == []
    ensures |r| <= |products|
  {
    var term := SearchTerm(query);
    if |term| < 2 then [] else Filter(products, term)
  }

  /** The `products.filter` callback for one search term. */
  function MatchesTerm(term: string): Product -> bool {
    p => Matches(p, term)
  }

  function Filter(products: seq<Product>, term: string): (r: seq<Product>)
    ensures |r| <= |products|
  {
    FilterSeq(products, MatchesTerm(term))
  }

  /** The result keeps exactly the matching products, in catalogue order. */
  lemma FilterSpec(products: seq<Product>, term: string)
    ensures IsSubsequence(Filter(products, term), products)
    ensures forall p :: p in Filter(products, term) <==> p in products && Matches(p, term)
    ensures forall p :: multiset(Filter(products, term))[p] == if Matches(p, term) then multiset(products)[p] else 0
  {
    FilterSeqSpec(products, MatchesTerm(term));
  }

  lemma FilterOne(p: Product, term: string)
    requires Matches(p, term)
    ensures Filter([p], term) == [p]
  {
    FilterSeqCons(p, [], MatchesTerm(term));
    assert [p] + [] == [p];
  }

  lemma AdvancedSearchSpec(products: seq<Product>, query: string)
    requires |SearchTerm(query)| >= 2
    ensures IsSubsequence(AdvancedSearch(products, query), products)
    ensures forall p :: p in AdvancedSearch(products, query) <==> p in products && Matches(p, SearchTerm(query))
    ensures forall p :: multiset(AdvancedSearch(products, query))[p] == if Matches(p, SearchTerm(query)) then multiset(products)[p] else 0
  {
    FilterSpec(products, SearchTerm(query));
  }

  /** Every exact rule is enough on its own (for a term of two characters or more). */
  lemma ExactRulesMatch(p: Product, term: string)
    ensures Contains(Lower(p.name), term) ==> Matches(p, term)
    ensures Contains(Lower(Transliterate(p.name)), TranslitQuery(term)) ==> Matches(p, term)
    ensures Contains(Lower(p.name), FixedQuery(term)) ==> Matches(p, term)
    ensures (exists k :: 0 <= k < |p.skus| && Contains(Lower(p.skus[k]), term)) ==> Matches(p, term)
  {
  }

  /** Short terms (two characters) match only through the exact rules. */
  lemma ShortTermExactOnly(p: Product, term: string)
    requires |term| < 3
    ensures Matches(p, term) <==> NameHit(p, term) || SkuHit(p.skus, term)
  {
  }

  /** The SKUs take part only in the exact SKU rule: the fuzzy tier never looks at them. */
  lemma SkusNeverFuzzy(name: string, skus: seq<string>, term: string)
    ensures Matches(Product(name, skus), term) <==> Matches(Product(name, []), term) || SkuHit(skus, term)
  {
    assert !SkuHit([], term);
  }

  /** A name that contains the term also passes the sliding window (distance 0). */
  lemma ContainedWindow(term: string, name: string)
    requires Contains(name, term)
    ensures WindowClose(term, name)
  {
    var i :| 0 <= i <= |name| - |term| && StartsWith(name[i..], term);
    assert name[i..i + |term|] == term;
    LevSelf(term);
    assert WindowDistance(term, name, i) == 0;
  }

  /** A term of at least three characters matches any name that starts with it
      through the prefix rule as well. */
  lemma PrefixOfName(term: string, name: string)
    requires |term| >= 3
    requires StartsWith(name, term)
    ensures PrefixClose(term, name)
  {
    assert JsSubstring(name, 0, |term|) == term;
    LevSelf(term);
  }

  // ---------------------------------------------------------------------------
  // The callback as the code runs it.

  /** The sliding-window loop of lines 98-106: stops at the first window within
      distance 1. */
  method SlidingWindow(q: string, name: string) returns (found: bool)
    ensures found == WindowClose(q, name)
  {
    var i := 0;
    while i <= |name| - |q|
      invariant 0 <= i
      invariant |name| - |q| >= 0 ==> i <= |name| - |q| + 1
      invariant forall k :: 0 <= k < i && k <= |name| - |q| ==> WindowDistance(q, name, k) > 1
    {
      var sub := JsSubstring(name, i, i + |q|);
      assert sub == name[i..i + |q|];
      var d := LevenshteinDistance(q, sub);
      if d <= 1 {
        assert WindowDistance(q, name, i) == d;
        return true;
      }
      i := i + 1;
    }
    return false;
  }

  /** The prefix check of lines 87-91. */
  method PrefixDistance(q: string, name: string) returns (close: bool)
    ensures close == PrefixClose(q, name)
  {
    var d := LevenshteinDistance(q, JsSubstring(name, 0, |q|));
    close := d <= 2 && 2 * d < |q|;
  }

  /** The `products.filter` callback of `advancedSearch`, with its early returns. */
  method ProductMatches(p: Product, term: string) returns (m: bool)
    ensures m == Matches(p, term)
  {
    var name := Lower(p.name);
    var nameT := Lower(Transliterate(p.name));
    var termT := TranslitQuery(term);
    var termF := FixLayout(term);
    if Contains(name, term) { return true; }
    if Contains(nameT, termT) { return true; }
    if Contains(name, Lower(termF)) { return true; }
    if SkuHit(p.skus, term) { return true; }
    if |term| >= 3 {
      m := PrefixDistance(term, name);
      if m { return true; }
      m := PrefixDistance(termT, nameT);
      if m { return true; }
      if PartialHit(term, name) { return true; }
      if PartialHit(termT, nameT) { return true; }
      m := SlidingWindow(term, name);
      if m { return true; }
      m := SlidingWindow(termT, nameT);
      if m { return true; }
    }
    return false;
  }

  // ---------------------------------------------------------------------------
  // Worked example from the catalogue: a Latin query finds a Cyrillic name.

  lemma TranslitPiece1() ensures Transliterate("Сма") == "Sma" {}
  lemma TranslitPiece2() ensures Transliterate("зка ") == "zka " {}
  lemma TranslitPiece3() ensures Transliterate("Вал") == "Val" {}
  lemma TranslitPiece4() ensures Transliterate("ера") == "era" {}

  lemma NameHalves() ensures "Смазка Валера" == "Смазка " + "Валера" {}
  lemma FirstWordPieces() ensures "Смазка " == "Сма" + "зка " {}
  lemma SecondWordPieces() ensures "Валера" == "Вал" + "ера" {}
  lemma LatinNameLowered() ensures Lower("Smazka Valera") == "smazka valera" {}
  lemma QueryLowered() ensures Lower("smazka valera") == "smazka valera" {}
  lemma QueryTrimmed() ensures Trim("smazka valera") == "smazka valera" {}

  lemma FirstWord() ensures Transliterate("Смазка ") == "Smazka " {
    TranslitPiece1(); TranslitPiece2(); FirstWordPieces();
    TransliterateAppend("Сма", "зка ");
  }

  lemma SecondWord() ensures Transliterate("Валера") == "Valera" {
    TranslitPiece3(); TranslitPiece4(); SecondWordPieces();
    TransliterateAppend("Вал", "ера");
  }

  lemma TranslitName(name: string)
    requires name == "Смазка Валера"
    ensures Transliterate(name) == "Smazka Valera"
  {
    FirstWord(); SecondWord(); NameHalves();
    TransliterateAppend("Смазка ", "Валера");
  }

  lemma QueryTranslit(query: string)
    requires query == "smazka valera"
    ensures Transliterate(query) == query
  {
    forall k | 0 <= k < |query| ensures TranslitFixed(query[k]) {
      assert IsAsciiLetter(query[k]) || query[k] == ' ';
      FixedChars(query[k]);
    }
    TransliterateIdentity(query);
  }

  /** Catalogue `[{name: "Смазка Валера", skus: ["VL-100"]}]` and query
      "smazka valera": the product is found through the transliterated name. */
  lemma TransliteratedQueryFinds(name: string, query: string)
    requires name == "Смазка Валера" && query == "smazka valera"
    ensures AdvancedSearch([Product(name, ["VL-100"])], query) == [Product(name, ["VL-100"])]
  {
    TranslitName(name);
    QueryTranslit(query);
    LatinNameLowered();
    QueryLowered();
    QueryTrimmed();
    assert SearchTerm(query) == query;
    ContainsSelf(query);
    var p := Product(name, ["VL-100"]);
    assert NameHit(p, query);
    FilterOne(p, query);
  }
}
