/** The string helpers of src/lib/utils.ts: HTML and regular-expression
    escaping, the empty-query case of highlighting, and the proxy URL
    builders. `encodeURIComponent` and the case-insensitive regular-expression
    replacement are parameters. */
module Utils {
  import opened Base

  // ---------------------------------------------------------------------------
  // `escapeHtml`.

  predicate HtmlSpecial(c: char) {
    c == '&' || c == '<' || c == '>' || c == '"' || c == '\''
  }

  /** The replacement of one character by `text.replace(/[&<>"']/g, ...)`. */
  function EscapeHtmlChar(c: char): (r: string)
    ensures !HtmlSpecial(c) ==> r == [c]
    ensures HtmlSpecial(c) ==> |r| > 1 && r[0] == '&' && r[|r| - 1] == ';'
    ensures '<' !in r && '>' !in r && '"' !in r && '\'' !in r
  {
    if c == '&' then "&amp;"
    else if c == '<' then "&lt;"
    else if c == '>' then "&gt;"
    else if c == '"' then "&quot;"
    else if c == '\'' then "&#039;"
    else [c]
  }

  function EscapeHtml(text: string): (r: string)
    ensures |r| >= |text|
    ensures '<' !in r && '>' !in r && '"' !in r && '\'' !in r
    ensures (forall k :: 0 <= k < |text| ==> !HtmlSpecial(text[k])) ==> r == text
  {
    if text == [] then []
    else EscapeHtmlChar(text[0]) + EscapeHtml(text[1..])
  }

  /** Decoding of the five entities `escapeHtml` writes; the inverse used to
      show that escaping loses nothing. */
  function UnescapeHtml(s: string): string
    decreases |s|
  {
    if s == [] then []
    else if s[0] != '&' then [s[0]] + UnescapeHtml(s[1..])
    else if StartsWith(s, "&amp;") then "&" + UnescapeHtml(s[5..])
    else if StartsWith(s, "&lt;") then "<" + UnescapeHtml(s[4..])
    else if StartsWith(s, "&gt;") then ">" + UnescapeHtml(s[4..])
    else if StartsWith(s, "&quot;") then "\"" + UnescapeHtml(s[6..])
    else if StartsWith(s, "&#039;") then "'" + UnescapeHtml(s[6..])
    else [s[0]] + UnescapeHtml(s[1..])
  }

  /** Decoding one escaped character in front of any text gives the character back. */
  lemma UnescapeHtmlChar(c: char, rest: string)
    ensures UnescapeHtml(EscapeHtmlChar(c) + rest) == [c] + UnescapeHtml(rest)
  {
    var e := EscapeHtmlChar(c);
    var s := e + rest;
    assert s[..|e|] == e;
    assert s[|e|..] == rest;
    if c == '&' {
      assert StartsWith(s, "&amp;");
    } else if c == '<' {
      assert s[1] == 'l';
      assert StartsWith(s, "&lt;");
    } else if c == '>' {
      assert s[1] == 'g';
      assert StartsWith(s, "&gt;");
    } else if c == '"' {
      assert s[1] == 'q';
      assert StartsWith(s, "&quot;");
    } else if c == '\'' {
      assert s[1] == '#';
      assert StartsWith(s, "&#039;");
    } else {
      assert s[0] == c;
      assert s[1..] == rest;
    }
  }

  /** Escaping is lossless: the entities decode back to the original text. */
  lemma {:induction false} UnescapeEscapeHtml(text: string)
    ensures UnescapeHtml(EscapeHtml(text)) == text
  {
    if text != [] {
      UnescapeHtmlChar(text[0], EscapeHtml(text[1..]));
      UnescapeEscapeHtml(text[1..]);
    }
  }

  // ---------------------------------------------------------------------------
  // `escapeRegex`.

  predicate RegexSpecial(c: char) {
    c in ".*+?^${}()|[]\\"
  }

  /** `str.replace(/[.*+?^${}()|[\]\\]/g, '\\$&')`. */
  function EscapeRegex(s: string): (r: string)
    ensures |r| >= |s|
    ensures (forall k :: 0 <= k < |s| ==> !RegexSpecial(s[k])) ==> r == s
  {
    if s == [] then []
    else (if RegexSpecial(s[0]) then ['\\', s[0]] else [s[0]]) + EscapeRegex(s[1..])
  }

  /** How a regular expression reads a pattern that should match one fixed
      text: an ordinary character stands for itself, a backslash followed by
      a metacharacter stands for that metacharacter, and anything else (an
      unescaped metacharacter, a backslash before an ordinary character or
      at the end) is not a literal, so the reading fails. */
  function RegexLiteral(p: string): (r: Option<string>)
    decreases |p|
  {
    if p == [] then Some([])
    else if p[0] == '\\' then
      if |p| >= 2 && RegexSpecial(p[1]) then Prepend(p[1], RegexLiteral(p[2..])) else None
    else if RegexSpecial(p[0]) then None
    else Prepend(p[0], RegexLiteral(p[1..]))
  }

  function Prepend(c: char, o: Option<string>): (r: Option<string>)
    ensures r.Some? <==> o.Some?
    ensures r.Some? ==> r.value == [c] + o.value
  {
    match o
    case None => None
    case Some(t) => Some([c] + t)
  }

  /** The escaped text, read as a pattern, stands for the input itself. */
  lemma {:induction false} RegexLiteralEscape(s: string)
    ensures RegexLiteral(EscapeRegex(s)) == Some(s)
  {
    if s != [] {
      var rest := EscapeRegex(s[1..]);
      RegexLiteralEscape(s[1..]);
      assert [s[0]] + s[1..] == s;
      if RegexSpecial(s[0]) {
        var e := ['\\', s[0]] + rest;
        assert e[2..] == rest;
        assert RegexLiteral(e) == Prepend(s[0], Some(s[1..]));
      } else {
        var e := [s[0]] + rest;
        assert e[1..] == rest;
        assert RegexLiteral(e) == Prepend(s[0], Some(s[1..]));
      }
    }
  }

  /** Escaping is the only way to write a text as a literal pattern: every
      pattern read as `s` is `EscapeRegex(s)`, so each metacharacter of `s`
      gains exactly one backslash and every other character is copied. */
  lemma {:induction false} RegexLiteralOnlyEscape(p: string, s: string)
    requires RegexLiteral(p) == Some(s)
    ensures p == EscapeRegex(s)
    decreases |p|
  {
    if p != [] {
      if p[0] == '\\' {
        var t := RegexLiteral(p[2..]).value;
        assert s == [p[1]] + t;
        RegexLiteralOnlyEscape(p[2..], t);
        assert s[1..] == t;
        assert p == ['\\', p[1]] + p[2..];
      } else {
        var t := RegexLiteral(p[1..]).value;
        assert s == [p[0]] + t;
        RegexLiteralOnlyEscape(p[1..], t);
        assert s[1..] == t;
        assert p == [p[0]] + p[1..];
      }
    }
  }

  // ---------------------------------------------------------------------------
  // `highlightText`.

  /** The source of the highlight pattern: the escaped query as one group. */
  function HighlightPattern(query: string): (r: string)
    ensures |r| >= 2 && r[0] == '(' && r[|r| - 1] == ')'
    ensures RegexLiteral(r[1..|r| - 1]) == Some(query)
  {
    var body := EscapeRegex(query);
    var r := "(" + body + ")";
    assert r[1..|r| - 1] == body;
    RegexLiteralEscape(query);
    r
  }

  /** `markAll(text, pattern)` stands for the case-insensitive, global
      `text.replace(new RegExp(pattern, 'gi'), '<mark class="highlight">$1</mark>')`. */
  function HighlightText(text: string, query: string, markAll: (string, string) -> string): (r: string)
    ensures query == "" ==> r == text
    ensures query != "" ==> r == markAll(text, HighlightPattern(query))
  {
    if query == "" then text else markAll(text, HighlightPattern(query))
  }

  // ---------------------------------------------------------------------------
  // Proxy URLs; `encode` stands for `encodeURIComponent`.

  const PreviewPrefix := "/api/preview?url="
  const DownloadPrefix := "/api/download?url="
  const FilenameParam := "&filename="

  /** The URL handed to the preview proxy: a size is added unless one is given. */
  function PreviewTarget(previewUrl: string, size: string): (r: string)
    ensures Contains(r, "size=")
    ensures StartsWith(r, previewUrl)
  {
    if Contains(previewUrl, "size=") then previewUrl
    else
      var r := previewUrl + "&size=" + size;
      assert r[|previewUrl| + 1..][..5] == "size=";
      assert r[..|previewUrl|] == previewUrl;
      r
  }

  /** Adding the size once is enough: the URL handed on already names one. */
  lemma PreviewTargetIdempotent(previewUrl: string, size: string, size2: string)
    ensures PreviewTarget(PreviewTarget(previewUrl, size), size2) == PreviewTarget(previewUrl, size)
  {
  }

  /** `getPreviewProxyUrl`; `size` defaults to "XXXL" at the call sites. */
  function PreviewProxyUrl(previewUrl: string, size: string, encode: string -> string): (r: string)
    ensures previewUrl == "" ==> r == ""
    ensures previewUrl != "" && Contains(previewUrl, "size=") ==> r == PreviewPrefix + encode(previewUrl)
    ensures previewUrl != "" && !Contains(previewUrl, "size=")
      ==> r == PreviewPrefix + encode(previewUrl + "&size=" + size)
  {
    if previewUrl == "" then "" else PreviewPrefix + encode(PreviewTarget(previewUrl, size))
  }

  /** With a reversible encoding the proxy receives the preview URL itself
      when it already names a size, and otherwise the URL followed by exactly
      `&size=` and the requested size. */
  lemma PreviewProxyDecodes(previewUrl: string, size: string, encode: string -> string, decode: string -> string)
    requires previewUrl != ""
    requires forall x :: decode(encode(x)) == x
    ensures StartsWith(PreviewProxyUrl(previewUrl, size, encode), PreviewPrefix)
    ensures var arg := decode(PreviewProxyUrl(previewUrl, size, encode)[|PreviewPrefix|..]);
      Contains(arg, "size=")
      && (Contains(previewUrl, "size=") ==> arg == previewUrl)
      && (!Contains(previewUrl, "size=") ==> arg == previewUrl + "&size=" + size)
  {
    var r := PreviewProxyUrl(previewUrl, size, encode);
    assert r[|PreviewPrefix|..] == encode(PreviewTarget(previewUrl, size));
  }

  /** `getDownloadProxyUrl`. */
  function DownloadProxyUrl(fileUrl: string, filename: string, encode: string -> string): (r: string)
    ensures fileUrl == "" ==> r == ""
    ensures fileUrl != "" ==> r == DownloadPrefix + encode(fileUrl) + FilenameParam + encode(filename)
  {
    if fileUrl == "" then "" else DownloadPrefix + encode(fileUrl) + FilenameParam + encode(filename)
  }

  /** `encodeURIComponent` never writes '&', so the query string splits back
      into exactly the two encoded parameters. */
  lemma DownloadProxySplits(fileUrl: string, filename: string, encode: string -> string)
    requires fileUrl != ""
    requires forall x :: '&' !in encode(x)
    ensures var r := DownloadProxyUrl(fileUrl, filename, encode);
      StartsWith(r, DownloadPrefix)
      && Split(r[|DownloadPrefix|..], '&') == [encode(fileUrl), "filename=" + encode(filename)]
  {
    var a, b := encode(fileUrl), "filename=" + encode(filename);
    assert '&' !in a;
    assert '&' !in b by {
      assert forall k :: 9 <= k < |b| ==> b[k] == encode(filename)[k - 9];
    }
    var r := DownloadProxyUrl(fileUrl, filename, encode);
    assert r == DownloadPrefix + (a + ['&'] + b);
    assert r[|DownloadPrefix|..] == a + ['&'] + b;
    SplitPair(a, b, '&');
  }
}
