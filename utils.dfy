/** File-name sanitising and YouTube URL validation (utils.py). */
module Utils {
  import opened Text

  // ---------------------------------------------------------------------------
  // sanitizar_nome_arquivo
  // ---------------------------------------------------------------------------

  /** The characters of the regex class `[<>:"/\\|?*]`, which are not allowed in file names. */
  predicate IsInvalid(c: char) {
    c == '<' || c == '>' || c == ':' || c == '"' || c == '/' || c == '\\' || c == '|' || c == '?' || c == '*'
  }

  /** `re.sub` of the invalid class by `_`, character by character. */
  function Sanitize(s: string): string {
    seq(|s|, i requires 0 <= i < |s| => if IsInvalid(s[i]) then '_' else s[i])
  }

  /** Sanitising keeps the length, turns each invalid character into `_` and keeps every other one. */
  lemma SanitizeReplacesInvalid(s: string)
    ensures |Sanitize(s)| == |s|
    ensures forall i | 0 <= i < |s| :: IsInvalid(s[i]) ==> Sanitize(s)[i] == '_'
    ensures forall i | 0 <= i < |s| :: !IsInvalid(s[i]) ==> Sanitize(s)[i] == s[i]
  {
  }

  /** The sanitised name holds none of the invalid characters. */
  lemma SanitizeIsClean(s: string)
    ensures forall i :: 0 <= i < |Sanitize(s)| ==> !IsInvalid(Sanitize(s)[i])
  {
  }

  /** Sanitising an already sanitised name changes nothing. */
  lemma SanitizeIdempotent(s: string)
    ensures Sanitize(Sanitize(s)) == Sanitize(s)
  {
    SanitizeIsClean(s);
  }

  /** Sanitising distributes over concatenation, so a sanitised title followed by
      a clean extension is the sanitised whole. */
  lemma {:induction false} SanitizeAppend(a: string, b: string)
    ensures Sanitize(a + b) == Sanitize(a) + Sanitize(b)
  {
    var l, r := Sanitize(a + b), Sanitize(a) + Sanitize(b);
    assert |l| == |r|;
    forall i | 0 <= i < |l| ensures l[i] == r[i] {
      if i < |a| {
        assert (a + b)[i] == a[i];
      } else {
        assert (a + b)[i] == b[i - |a|];
      }
    }
  }

  // ---------------------------------------------------------------------------
  // urllib.parse.urlparse, as far as validar_url_youtube depends on it
  // ---------------------------------------------------------------------------

  predicate IsAsciiAlpha(c: char) {
    'a' <= c <= 'z' || 'A' <= c <= 'Z'
  }

  /** `urllib.parse.scheme_chars`. */
  predicate IsSchemeChar(c: char) {
    IsAsciiAlpha(c) || '0' <= c <= '9' || c == '+' || c == '-' || c == '.'
  }

  /** urlsplit first drops leading C0 controls and spaces. */
  function LStripControls(s: string): (r: string)
    ensures |r| <= |s| && r == s[|s| - |r|..]
  {
    if |s| > 0 && s[0] <= ' ' then LStripControls(s[1..]) else s
  }

  /** `urllib.parse._UNSAFE_URL_BYTES_TO_REMOVE`: tab, carriage return, line feed. */
  predicate IsUnsafe(c: char) {
    c == '\t' || c == '\r' || c == '\n'
  }

  /** A character that ends the network location: `/`, `?` or `#`. */
  predicate EndsNetloc(c: char) {
    c == '/' || c == '?' || c == '#'
  }

  /** urlsplit then removes every tab, carriage return and line feed. */
  function RemoveUnsafe(s: string): (r: string)
    ensures forall i :: 0 <= i < |r| ==> !IsUnsafe(r[i])
  {
    if s == [] then []
    else if IsUnsafe(s[0]) then RemoveUnsafe(s[1..])
    else [s[0]] + RemoveUnsafe(s[1..])
  }

  /** The text urlsplit actually parses. */
  function Cleaned(url: string): string {
    RemoveUnsafe(LStripControls(url))
  }

  /** Scheme detection of urlsplit: the text before the first `:` is the
      scheme (lower-cased) when it is non-empty, starts with an ASCII letter
      and holds only scheme characters; otherwise the scheme is empty. */
  function SplitScheme(u: string): (r: (string, string))
    ensures r.0 != [] ==> exists i | 0 < i < |u| :: u[i] == ':' && r.0 == Lower(u[..i]) && r.1 == u[i + 1..]
    ensures r.0 == [] ==> r.1 == u
  {
    match Find(u, ":")
    case Some(i) =>
      if i > 0 && IsAsciiAlpha(u[0]) && forall j | 0 <= j < i :: IsSchemeChar(u[j])
      then (Lower(u[..i]), u[i + 1..])
      else ("", u)
    case None => ("", u)
  }

  /** A scheme urlsplit accepts: an ASCII letter, then scheme characters only. */
  predicate IsSchemeText(t: string) {
    |t| > 0 && IsAsciiAlpha(t[0]) && forall j | 0 <= j < |t| :: IsSchemeChar(t[j])
  }

  /** urlsplit finds a scheme exactly when the text before some `:` is a
      valid scheme; that `:` is then the first one, and the scheme is the
      lower-cased text before it. */
  lemma SchemeBeforeFirstColon(u: string)
    ensures SplitScheme(u).0 != [] <==> exists i | 0 <= i < |u| :: u[i] == ':' && IsSchemeText(u[..i])
    ensures SplitScheme(u).0 != [] ==>
              exists i | 0 < i < |u| :: u[i] == ':' && (forall j | 0 <= j < i :: u[j] != ':') &&
                                       SplitScheme(u).0 == Lower(u[..i]) && SplitScheme(u).1 == u[i + 1..]
  {
    match Find(u, ":")
    case None =>
      if exists i | 0 <= i < |u| :: u[i] == ':' && IsSchemeText(u[..i]) {
        var i :| 0 <= i < |u| && u[i] == ':' && IsSchemeText(u[..i]);
        CharOccurs(u, ':', i);
        assert false;
      }
    case Some(f) =>
      assert u[f] == u[f..f + 1][0] == ':';
      forall j | 0 <= j < f ensures u[j] != ':' {
        if u[j] == ':' {
          CharOccurs(u, ':', j);
        }
      }
      if exists i | 0 <= i < |u| :: u[i] == ':' && IsSchemeText(u[..i]) {
        var i :| 0 <= i < |u| && u[i] == ':' && IsSchemeText(u[..i]);
        assert i == f;
        assert forall j | 0 <= j < f :: u[..f][j] == u[j];
      }
  }

  /** End of the network location that starts at `k`: the first `/`, `?` or `#` at or after `k`. */
  function NetlocEnd(s: string, k: nat): (e: nat)
    requires k <= |s|
    ensures k <= e <= |s|
    ensures forall j :: k <= j < e ==> !EndsNetloc(s[j])
    ensures e < |s| ==> EndsNetloc(s[e])
    decreases |s| - k
  {
    if k == |s| || EndsNetloc(s[k]) then k else NetlocEnd(s, k + 1)
  }

  /** The scheme urlparse reports, or the ValueError it raises for a network
      location with one bracket of an IPv6 literal but not the other. */
  function UrlScheme(url: string): (r: Result<string>)
  {
    var split := SplitScheme(Cleaned(url));
    var scheme, rest := split.0, split.1;
    if StartsWith(rest, "//") then
      var netloc := rest[2..NetlocEnd(rest, 2)];
      if ('[' in netloc) != (']' in netloc) then Err("Invalid IPv6 URL") else Ok(scheme)
    else Ok(scheme)
  }

  // ---------------------------------------------------------------------------
  // The YouTube pattern
  //   ^((?:https?:)?\/\/)?((?:www|m)\.)?((?:youtube(-nocookie)?\.com|youtu.be))
  //    (\/(?:[\w\-]+\?v=|embed\/|v\/)?)([\w\-]+)(\S+)?$
  // recognised by hand. `\w` is taken as the ASCII word characters.
  // ---------------------------------------------------------------------------

  predicate IsIdChar(c: char) {
    IsAsciiAlpha(c) || '0' <= c <= '9' || c == '_' || c == '-'
  }

  /** `([\w\-]+)(\S+)?` over the whole of `b`: a run of non-whitespace
      characters whose first one is a word character or hyphen. The optional
      group `(?:[\w\-]+\?v=|embed\/|v\/)?` before it adds no string to the
      language, since each of its alternatives is itself such a run. */
  predicate IdAndTail(b: string) {
    |b| > 0 && IsIdChar(b[0]) && forall i | 0 <= i < |b| :: !IsSpace(b[i])
  }

  /** The `/`, the id and the tail, then `$`, which also matches just before a final newline. */
  predicate PathPart(t: string) {
    |t| > 0 && t[0] == '/' &&
    (IdAndTail(t[1..]) || (t[|t| - 1] == '\n' && IdAndTail(t[1..|t| - 1])))
  }

  /** One of the three host alternatives, then the path part. In `youtu.be` the
      dot is any character but a newline. */
  predicate HostAndPath(s: string) {
    (StartsWith(s, "youtube.com") && PathPart(s[11..])) ||
    (StartsWith(s, "youtube-nocookie.com") && PathPart(s[20..])) ||
    (|s| >= 8 && s[..5] == "youtu" && s[5] != '\n' && s[6..8] == "be" && PathPart(s[8..]))
  }

  /** The optional `www.` or `m.` subdomain. */
  predicate SubdomainHostAndPath(s: string) {
    HostAndPath(s) ||
    (StartsWith(s, "www.") && HostAndPath(s[4..])) ||
    (StartsWith(s, "m.") && HostAndPath(s[2..]))
  }

  /** `re.match` of the whole pattern, whose first group is an optional
      `http:`/`https:` followed by `//`. */
  predicate MatchesYoutube(u: string) {
    SubdomainHostAndPath(u) ||
    (StartsWith(u, "//") && SubdomainHostAndPath(u[2..])) ||
    (StartsWith(u, "http://") && SubdomainHostAndPath(u[7..])) ||
    (StartsWith(u, "https://") && SubdomainHostAndPath(u[8..]))
  }

  // ---------------------------------------------------------------------------
  // validar_url_youtube
  // ---------------------------------------------------------------------------

  const EmptyUrl := "URL não pode estar vazia"
  const MalformedUrl := "URL mal formatada"
  const NotYoutube := "URL não parece ser do YouTube"

  /** `(True, url)` or `(False, message)`. */
  datatype Validation = Valid(url: string) | Invalid(message: string)

  /** The URL the pattern is matched against: `https://` is put in front when urlparse finds no scheme. */
  function Normalized(url: string): string {
    if UrlScheme(url) == Ok("") then "https://" + url else url
  }

  function ValidateUrl(url: string): (r: Validation)
    ensures url == [] ==> r == Invalid(EmptyUrl)
    ensures r.Valid? ==> url != [] && r.url == Normalized(url) && MatchesYoutube(r.url)
    ensures r.Valid? ==> r.url == url || r.url == "https://" + url
    ensures r.Valid? <==>
              url != [] && UrlScheme(url).Ok? && UrlScheme(Normalized(url)).Ok? && MatchesYoutube(Normalized(url))
    ensures r == Invalid(NotYoutube) <==>
              url != [] && UrlScheme(url).Ok? && UrlScheme(Normalized(url)).Ok? && !MatchesYoutube(Normalized(url))
    ensures r == Invalid(MalformedUrl) <==>
              url != [] && (UrlScheme(url).Err? || UrlScheme(Normalized(url)).Err?)
  {
    if url == [] then Invalid(EmptyUrl)
    else
      match UrlScheme(url)
      case Err(_) => Invalid(MalformedUrl)
      case Ok(scheme) =>
        var u := if scheme == "" then "https://" + url else url;
        if scheme == "" && UrlScheme(u).Err? then Invalid(MalformedUrl)
        else if MatchesYoutube(u) then Valid(u)
        else Invalid(NotYoutube)
  }

  lemma {:induction false} RemoveUnsafeAppend(a: string, b: string)
    ensures RemoveUnsafe(a + b) == RemoveUnsafe(a) + RemoveUnsafe(b)
    decreases |a|
  {
    if a == [] {
      assert a + b == b;
    } else {
      assert (a + b)[0] == a[0] && (a + b)[1..] == a[1..] + b;
      RemoveUnsafeAppend(a[1..], b);
    }
  }

  lemma {:induction false} RemoveUnsafeKeeps(s: string)
    requires forall i | 0 <= i < |s| :: !IsUnsafe(s[i])
    ensures RemoveUnsafe(s) == s
  {
    if s != [] {
      RemoveUnsafeKeeps(s[1..]);
    }
  }

  lemma CleanedHttps(x: string)
    ensures Cleaned("https://" + x) == "https://" + RemoveUnsafe(x)
  {
    var u := "https://" + x;
    assert LStripControls(u) == u by {
      assert u[0] == 'h';
    }
    assert RemoveUnsafe("https://") == "https://" by {
      RemoveUnsafeKeeps("https://");
    }
    RemoveUnsafeAppend("https://", x);
  }

  lemma FindHttpsColon(y: string)
    ensures Find("https://" + y, ":") == Some(5)
  {
    var c := "https://" + y;
    assert OccursAt(c, ":", 5) by {
      assert c[5..6] == [':'];
    }
    forall j | 0 <= j < 5 ensures !OccursAt(c, ":", j) {
      assert c[j..j + 1] == [c[j]];
    }
  }

  /** Whatever follows it, text that starts with `https://` is parsed with the scheme `https`. */
  lemma HttpsPrefixHasScheme(x: string)
    requires UrlScheme("https://" + x).Ok?
    ensures UrlScheme("https://" + x) == Ok("https")
  {
    var c := Cleaned("https://" + x);
    assert SplitScheme(c).0 == "https" by {
      CleanedHttps(x);
      FindHttpsColon(RemoveUnsafe(x));
      assert c[..5] == "https";
      assert forall j | 0 <= j < 5 :: IsSchemeChar(c[j]);
      assert Lower("https") == "https";
    }
  }

  /** Validation is idempotent: validating the URL it returned returns it unchanged. */
  lemma ValidateNormalizedIsStable(url: string)
    requires ValidateUrl(url).Valid?
    ensures ValidateUrl(ValidateUrl(url).url) == ValidateUrl(url)
  {
    var u := ValidateUrl(url).url;
    if u != url {
      assert u == "https://" + url;
      HttpsPrefixHasScheme(url);
      assert Normalized(u) == u;
    }
  }
}
