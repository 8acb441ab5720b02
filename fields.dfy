/**
 * The field validators of src/hooks/useValidation.ts: the e-mail pattern, the
 * Brazilian phone digit count, `normalizeUrl` and the LinkedIn host allow-list.
 */
module Fields {
  import opened Wrappers
  import opened Text

  // ----- e-mail: /^[^\s@]+@[^\s@]+\.[^\s@]{2,}$/i -----

  /** `[^\s@]`. */
  predicate IsEmailChar(c: char) {
    !IsSpace(c) && c != '@'
  }

  predicate AllEmailChars(s: string) {
    forall i :: 0 <= i < |s| ==> IsEmailChar(s[i])
  }

  /** The length JavaScript gives `s`: the number of its UTF-16 code units, two for
      a code point above U+FFFF (a surrogate pair), one for any other. A pattern
      without the `u` flag, such as the e-mail pattern, counts these units. */
  function Utf16Length(s: string): (n: nat)
    ensures |s| <= n <= 2 * |s|
  {
    if s == [] then 0 else (if s[0] as int > 0xFFFF then 2 else 1) + Utf16Length(s[1..])
  }

  /** Dropping characters from the front never lengthens a string. */
  lemma {:induction false} Utf16LengthOfSuffix(s: string, i: nat, j: nat)
    requires i <= j <= |s|
    ensures Utf16Length(s[i..]) >= Utf16Length(s[j..])
    decreases j - i
  {
    if i < j {
      assert s[i..][1..] == s[i + 1..];
      Utf16LengthOfSuffix(s, i + 1, j);
    }
  }

  /** One way of matching `s` against the e-mail pattern: the '@' at `at` and the
      dot before the last part at `dot`; `{2,}` asks for two code units after it. */
  ghost predicate EmailSplitAt(s: string, at: int, dot: int) {
    && 0 < at && at + 1 < dot < |s| && Utf16Length(s[dot + 1..]) >= 2
    && s[at] == '@' && s[dot] == '.'
    && AllEmailChars(s[..at]) && AllEmailChars(s[at + 1..dot]) && AllEmailChars(s[dot + 1..])
  }

  /** What the regular expression accepts. */
  ghost predicate MatchesEmailPattern(s: string) {
    exists at, dot :: EmailSplitAt(s, at, dot)
  }

  /** `indexOf` for one character. */
  function FirstIndexOf(s: string, c: char): (r: Option<nat>)
    ensures r.None? <==> c !in s
    ensures r.Some? ==> r.value < |s| && s[r.value] == c && c !in s[..r.value]
  {
    if s == [] then None
    else if s[0] == c then Some(0)
    else match FirstIndexOf(s[1..], c)
      case None => None
      case Some(k) => assert s[1..][..k] == s[1..k + 1]; Some(k + 1)
  }

  /** `emailRegex.test(s)` decided in one pass: no white space, a single '@' with
      something before it, and after it a '.' with a character before it; the first
      such '.' leaves the longest last part, which must take two code units. */
  predicate IsValidEmail(s: string) {
    && (forall i :: 0 <= i < |s| ==> !IsSpace(s[i]))
    && match FirstIndexOf(s, '@')
       case None => false
       case Some(at) =>
         var rest := s[at + 1..];
         && at > 0 && '@' !in rest && rest != []
         && match FirstIndexOf(rest[1..], '.')
            case None => false
            case Some(k) => Utf16Length(rest[k + 2..]) >= 2
  }

  /** The one-pass check and the regular expression accept the same strings. */
  lemma IsValidEmailMatchesPattern(s: string)
    ensures IsValidEmail(s) <==> MatchesEmailPattern(s)
  {
    if IsValidEmail(s) {
      ValidEmailMatches(s);
    }
    if MatchesEmailPattern(s) {
      var at, dot :| EmailSplitAt(s, at, dot);
      PatternIsValidEmail(s, at, dot);
    }
  }

  lemma ValidEmailMatches(s: string)
    requires IsValidEmail(s)
    ensures MatchesEmailPattern(s)
  {
    var at := FirstIndexOf(s, '@').value;
    var rest := s[at + 1..];
    var k := FirstIndexOf(rest[1..], '.').value;
    var dot := at + 2 + k;
    DotAfterAt(s, at, k);
    OneAtGivesEmailChars(s, at, dot);
    assert EmailSplitAt(s, at, dot);
  }

  /** Positions in the text after the '@' at `at`, read back in `s`. */
  lemma DotAfterAt(s: string, at: nat, k: nat)
    requires at + 2 + k < |s| && s[at + 1..][1..][k] == '.'
    ensures s[at + 2 + k] == '.' && s[at + 3 + k..] == s[at + 1..][k + 2..]
  {
  }

  /** Without white space, and with '@' only at `at`, every part is made of `[^\s@]`. */
  lemma OneAtGivesEmailChars(s: string, at: int, dot: int)
    requires 0 < at < dot < |s|
    requires forall i :: 0 <= i < |s| ==> !IsSpace(s[i])
    requires '@' !in s[..at] && '@' !in s[at + 1..]
    ensures AllEmailChars(s[..at]) && AllEmailChars(s[at + 1..dot]) && AllEmailChars(s[dot + 1..])
  {
    var local, domain := s[..at], s[at + 1..dot];
    forall i | 0 <= i < |local| ensures IsEmailChar(local[i]) {
      assert local[i] == s[i];
    }
    forall i | 0 <= i < |domain| ensures IsEmailChar(domain[i]) {
      assert domain[i] == s[at + 1..][i] == s[at + 1 + i];
    }
    var last := s[dot + 1..];
    forall i | 0 <= i < |last| ensures IsEmailChar(last[i]) {
      assert last[i] == s[at + 1..][dot - at + i] == s[dot + 1 + i];
    }
  }

  lemma PatternIsValidEmail(s: string, at: int, dot: int)
    requires EmailSplitAt(s, at, dot)
    ensures IsValidEmail(s)
  {
    SplitHasOneAt(s, at, dot);
    var rest := s[at + 1..];
    FirstDotKeepsLongestPart(rest, dot - at - 1);
    assert rest[dot - at..] == s[dot + 1..];
  }

  /** A split string has no white space and its only '@' is the one at `at`. */
  lemma SplitHasOneAt(s: string, at: int, dot: int)
    requires EmailSplitAt(s, at, dot)
    ensures forall i :: 0 <= i < |s| ==> !IsSpace(s[i])
    ensures FirstIndexOf(s, '@') == Some(at) && '@' !in s[at + 1..]
  {
    forall i | 0 <= i < |s| ensures !IsSpace(s[i]) && (i != at ==> s[i] != '@') {
      if i < at {
        assert s[i] == s[..at][i];
      } else if at < i < dot {
        assert s[i] == s[at + 1..dot][i - at - 1];
      } else if dot < i {
        assert s[i] == s[dot + 1..][i - dot - 1];
      }
    }
    assert '@' !in s[..at];
    var rest := s[at + 1..];
    forall j | 0 <= j < |rest| ensures rest[j] != '@' {
      assert rest[j] == s[at + 1 + j];
    }
  }

  /** The first '.' after the first character leaves a last part at least as long,
      in code units, as any later '.' does. */
  lemma FirstDotKeepsLongestPart(rest: string, d: int)
    requires 1 <= d < |rest| && rest[d] == '.'
    ensures FirstIndexOf(rest[1..], '.').Some?
    ensures Utf16Length(rest[FirstIndexOf(rest[1..], '.').value + 2..]) >= Utf16Length(rest[d + 1..])
  {
    assert rest[1..][d - 1] == '.';
    var k := FirstIndexOf(rest[1..], '.').value;
    assert k <= d - 1;
    Utf16LengthOfSuffix(rest, k + 2, d + 1);
  }

  /** A last part of one code point above U+FFFF takes two code units, so the
      pattern accepts "a@b.😀". */
  lemma AstralLastPartAccepted(s: string)
    requires s == "a@b.\U{1F600}"
    ensures IsValidEmail(s) && MatchesEmailPattern(s)
  {
    assert s[..1] == "a" && s[2..3] == "b" && s[4..] == "\U{1F600}";
    assert EmailSplitAt(s, 1, 3);
    IsValidEmailMatchesPattern(s);
  }

  /** A last part of one code unit, as in "a@b.c", is too short. */
  lemma OneUnitLastPartRefused(s: string)
    requires s == "a@b.c"
    ensures !IsValidEmail(s) && !MatchesEmailPattern(s)
  {
    assert FirstIndexOf(s, '@') == Some(1);
    assert s[2..][1..] == ".c";
    assert FirstIndexOf(s[2..][1..], '.') == Some(0);
    assert s[2..][2..] == "c";
    IsValidEmailMatchesPattern(s);
  }

  // ----- phone: validatePhoneBR -----

  /** `validatePhoneBR`: exactly 10 or 11 ASCII digits (area code + 8 or 9 digits). */
  predicate ValidatePhoneBR(raw: string) {
    var n := |Digits(raw)|;
    n == 10 || n == 11
  }

  /** Formatting characters do not matter: inserting any non-digit anywhere keeps the verdict. */
  lemma PhoneIgnoresNonDigits(a: string, c: char, b: string)
    requires !IsDigit(c)
    ensures ValidatePhoneBR(a + [c] + b) == ValidatePhoneBR(a + b)
  {
    DigitsConcat(a + [c], b);
    DigitsConcat(a, [c]);
    DigitsConcat(a, b);
    assert Digits([c]) == [];
  }

  /** On a string of digits only, the verdict is its length. */
  lemma PhoneOfDigitString(d: string)
    requires AllDigits(d)
    ensures ValidatePhoneBR(d) <==> |d| == 10 || |d| == 11
  {
  }

  // ----- URL scheme and normalizeUrl -----

  /** `[a-zA-Z0-9+.-]`. */
  predicate IsSchemeChar(c: char) {
    IsAsciiLetter(c) || IsDigit(c) || c == '+' || c == '.' || c == '-'
  }

  /** `v` matches `^[a-zA-Z][a-zA-Z0-9+.-]*:` with the ':' at index `k` (section 3.1 of RFC 3986). */
  ghost predicate SchemeEndsAt(v: string, k: int) {
    && 1 <= k < |v| && IsAsciiLetter(v[0]) && v[k] == ':'
    && forall i :: 1 <= i < k ==> IsSchemeChar(v[i])
  }

  /** Length of the leading run of scheme characters. */
  function SchemeRun(t: string): (n: nat)
    ensures n <= |t| && (forall i :: 0 <= i < n ==> IsSchemeChar(t[i]))
    ensures n == |t| || !IsSchemeChar(t[n])
  {
    if t != [] && IsSchemeChar(t[0]) then 1 + SchemeRun(t[1..]) else 0
  }

  /** The index of the ':' that ends a scheme prefix, if `v` has one. */
  function SchemeColon(v: string): (r: Option<nat>)
    ensures r.Some? ==> SchemeEndsAt(v, r.value)
    ensures r.None? ==> forall k :: !SchemeEndsAt(v, k)
  {
    if v != [] && IsAsciiLetter(v[0]) then
      var n := SchemeRun(v[1..]);
      if 1 + n < |v| && v[1 + n] == ':' then
        assert forall i :: 1 <= i < 1 + n ==> v[i] == v[1..][i - 1];
        Some(1 + n)
      else
        assert forall k :: SchemeEndsAt(v, k) ==> k == 1 + n;
        None
    else
      None
  }

  /** `normalizeUrl`: trims, maps blank to "", and puts `https://` before input with no scheme. */
  function NormalizeUrl(raw: string): (r: string)
    ensures r == [] <==> IsBlank(raw)
    ensures r != [] ==> SchemeColon(r).Some? && !IsSpace(r[0]) && !IsSpace(r[|r| - 1])
  {
    var v := Trim(raw);
    if v == [] then v
    else if SchemeColon(v).None? then
      HttpsPrefixed(v);
      "https://" + v
    else v
  }

  /** `https://` followed by anything has the scheme `https`, ending at index 5. */
  lemma HttpsPrefixed(v: string)
    ensures SchemeColon("https://" + v) == Some(5)
  {
    var u := "https://" + v;
    assert u[0] == 'h' && u[1] == 't' && u[2] == 't' && u[3] == 'p' && u[4] == 's' && u[5] == ':';
    assert u[1..][..5] == "ttps:";
    SchemeRunStopsAt(u[1..], 4);
  }

  /** Trimmed input that already has a scheme is left as it is. */
  lemma NormalizeSchemed(u: string)
    requires u != [] && !IsSpace(u[0]) && !IsSpace(u[|u| - 1]) && SchemeColon(u).Some?
    ensures NormalizeUrl(u) == u
  {
    TrimOfTrimmed(u);
  }

  /** Trimmed input without a scheme gets `https://`. */
  lemma NormalizeUnschemed(w: string)
    requires w != [] && !IsSpace(w[0]) && !IsSpace(w[|w| - 1]) && SchemeColon(w).None?
    ensures NormalizeUrl(w) == "https://" + w
  {
    TrimOfTrimmed(w);
  }

  /** A run of scheme characters that stops at a non-scheme character has that length. */
  lemma SchemeRunStopsAt(t: string, n: nat)
    requires n <= |t| && (forall i :: 0 <= i < n ==> IsSchemeChar(t[i]))
    requires n == |t| || !IsSchemeChar(t[n])
    ensures SchemeRun(t) == n
  {
  }

  /** Normalizing twice is normalizing once. */
  lemma NormalizeUrlIdempotent(raw: string)
    ensures NormalizeUrl(NormalizeUrl(raw)) == NormalizeUrl(raw)
  {
    var r := NormalizeUrl(raw);
    if r != [] {
      NormalizeSchemed(r);
    } else {
      assert IsBlank(r);
    }
  }

  /** Non-blank input that starts with a scheme is only trimmed; other non-blank input gets `https://`. */
  lemma NormalizeUrlCases(raw: string)
    ensures !IsBlank(raw) && (exists k :: SchemeEndsAt(Trim(raw), k)) ==> NormalizeUrl(raw) == Trim(raw)
    ensures !IsBlank(raw) && SchemeColon(Trim(raw)).None? ==> NormalizeUrl(raw) == "https://" + Trim(raw)
  {
  }

  // ----- host extraction (a simplified WHATWG URL parser) -----

  function TakeUntil(s: string, stop: char -> bool): (r: string)
    ensures |r| <= |s| && r == s[..|r|] && (forall i :: 0 <= i < |r| ==> !stop(r[i]))
    ensures |r| == |s| || stop(s[|r|])
  {
    if s == [] || stop(s[0]) then [] else [s[0]] + TakeUntil(s[1..], stop)
  }

  function DropWhile(s: string, skip: char -> bool): (r: string)
    ensures |r| <= |s| && r == s[|s| - |r|..] && (forall i :: 0 <= i < |s| - |r| ==> skip(s[i]))
    ensures r == [] || !skip(r[0])
  {
    if s != [] && skip(s[0]) then
      var r := DropWhile(s[1..], skip);
      assert s[1..][|s| - 1 - |r|..] == s[|s| - |r|..];
      assert forall i :: 1 <= i < |s| - |r| ==> s[i] == s[1..][i - 1];
      r
    else s
  }

  lemma {:induction false} TakeUntilStopsAt(s: string, stop: char -> bool, n: nat)
    requires n <= |s| && (forall i :: 0 <= i < n ==> !stop(s[i]))
    requires n == |s| || stop(s[n])
    ensures TakeUntil(s, stop) == s[..n]
  {
    if n > 0 {
      assert forall i :: 0 <= i < n - 1 ==> s[1..][i] == s[i + 1];
      TakeUntilStopsAt(s[1..], stop, n - 1);
      assert [s[0]] + s[1..][..n - 1] == s[..n];
    }
  }

  lemma {:induction false} DropWhileStopsAt(s: string, skip: char -> bool, n: nat)
    requires n <= |s| && (forall i :: 0 <= i < n ==> skip(s[i]))
    requires n == |s| || !skip(s[n])
    ensures DropWhile(s, skip) == s[n..]
  {
    if n > 0 {
      assert forall i :: 0 <= i < n - 1 ==> s[1..][i] == s[i + 1];
      DropWhileStopsAt(s[1..], skip, n - 1);
      assert s[1..][n - 1..] == s[n..];
    }
  }

  /** `lastIndexOf` for one character. */
  function LastIndexOf(s: string, c: char): (r: Option<nat>)
    ensures r.None? <==> c !in s
    ensures r.Some? ==> r.value < |s| && s[r.value] == c && c !in s[r.value + 1..]
  {
    if s == [] then None
    else if s[|s| - 1] == c then Some(|s| - 1)
    else
      assert s == s[..|s| - 1] + [s[|s| - 1]];
      var r := LastIndexOf(s[..|s| - 1], c);
      assert r.Some? ==> s[r.value + 1..] == s[..|s| - 1][r.value + 1..] + [s[|s| - 1]];
      r
  }

  predicate IsSlash(c: char) {
    c == '/' || c == '\\'
  }

  /** End of the authority of a special URL (where backslash counts as a slash). */
  predicate EndsSpecialAuthority(c: char) {
    c == '/' || c == '\\' || c == '?' || c == '#'
  }

  predicate EndsAuthority(c: char) {
    c == '/' || c == '?' || c == '#'
  }

  /** A forbidden host code point: the URL parser refuses it in any host. */
  predicate IsForbiddenHostChar(c: char) {
    c == '\0' || c == '\t' || c == '\n' || c == '\r' || c == ' ' || c in "#/:<>?@[\\]^|"
  }

  /** A forbidden domain code point: also every C0 control, '%' and DEL, refused in the
      host of a special URL. */
  predicate IsForbiddenDomainChar(c: char) {
    c <= ' ' || c == '\U{007F}' || c in "#%/:<>?@[\\]^|"
  }

  predicate HasForbiddenHostChar(host: string, special: bool) {
    exists i :: 0 <= i < |host| && (if special then IsForbiddenDomainChar(host[i]) else IsForbiddenHostChar(host[i]))
  }

  /** Schemes the URL standard treats as special. */
  predicate IsSpecialScheme(scheme: string) {
    scheme == "http" || scheme == "https" || scheme == "ws" || scheme == "wss" || scheme == "ftp" || scheme == "file"
  }

  /** The largest port number the URL parser accepts. */
  const MaxPort := 65535

  /** Host of an authority `user@host:port`: None when the port is not a number or is above
      65535, the host of a special URL is empty, or the host has a forbidden code point.
      The host of a special URL is lower-cased. */
  function HostOfAuthority(authority: string, special: bool): Option<string> {
    var hostAndPort := match LastIndexOf(authority, '@')
      case None => authority
      case Some(i) => authority[i + 1..];
    var colon := LastIndexOf(hostAndPort, ':');
    var host := if colon.Some? then hostAndPort[..colon.value] else hostAndPort;
    var port := if colon.Some? then hostAndPort[colon.value + 1..] else "";
    if !AllDigits(port) || DecimalValue(port) > MaxPort || (special && host == []) || HasForbiddenHostChar(host, special) then None
    else if special then Some(ToLower(host))
    else Some(host)
  }

  /** A Windows drive letter: an ASCII letter, then ':' or '|'. */
  predicate IsDriveLetter(s: string) {
    |s| == 2 && IsAsciiLetter(s[0]) && (s[1] == ':' || s[1] == '|')
  }

  /** The host of a `file:` URL. Only after two slashes is there a host: the text up to the
      next delimiter, with no user info or port. A drive letter, an empty host and
      `localhost` give the empty host. */
  function FileHostname(rest: string): Option<string> {
    if |rest| >= 2 && IsSlash(rest[0]) && IsSlash(rest[1]) then
      var buffer := TakeUntil(rest[2..], EndsSpecialAuthority);
      if IsDriveLetter(buffer) || buffer == [] then Some("")
      else if HasForbiddenHostChar(buffer, true) then None
      else if ToLower(buffer) == "localhost" then Some("")
      else Some(ToLower(buffer))
    else Some("")
  }

  /** `new URL(u).hostname`, or None where the constructor throws. */
  function UrlHostname(u: string): Option<string> {
    match SchemeColon(u)
    case None => None
    case Some(k) => SchemeHostname(ToLower(u[..k]), u[k + 1..])
  }

  /** The host of a URL with the given (lower-cased) scheme, from the text after the colon. */
  function SchemeHostname(scheme: string, rest: string): Option<string> {
    if scheme == "file" then
      FileHostname(rest)
    else if IsSpecialScheme(scheme) then
      HostOfAuthority(TakeUntil(DropWhile(rest, IsSlash), EndsSpecialAuthority), true)
    else if |rest| >= 2 && rest[..2] == "//" then
      HostOfAuthority(TakeUntil(rest[2..], EndsAuthority), false)
    else
      Some("")
  }

  // ----- validateLinkedIn -----

  /** The allow-list: linkedin.com, any subdomain of it, and the short-link domain lnkd.in. */
  predicate IsLinkedInHost(host: string) {
    host == "linkedin.com" || EndsWith(host, ".linkedin.com") || host == "lnkd.in"
  }

  /** `validateLinkedIn`: "" is accepted; otherwise the lower-cased host of the normalized
      URL must be on the allow-list, and a URL that does not parse is refused. */
  predicate ValidateLinkedIn(url: string) {
    || url == []
    || match UrlHostname(NormalizeUrl(url))
       case None => false
       case Some(host) => IsLinkedInHost(ToLower(host))
  }

  /** A label of `host` starts at `i`: at the start, or right after a dot. */
  predicate StartsLabel(host: string, i: int) {
    i == 0 || (0 < i <= |host| && host[i - 1] == '.')
  }

  /** A label starts at `i` with `xn--` in any letter case. */
  predicate PunycodeLabelAt(host: string, i: nat) {
    && i + 4 <= |host| && StartsLabel(host, i)
    && LowerChar(host[i]) == 'x' && LowerChar(host[i + 1]) == 'n' && host[i + 2] == '-' && host[i + 3] == '-'
  }

  /** Some label starts with `xn--`; IDNA decodes such a label as Punycode. */
  predicate HasPunycodeLabel(host: string) {
    exists i: nat | i < |host| :: PunycodeLabelAt(host, i)
  }

  /** The text after the last dot, or the whole host when it has none. */
  function LastLabel(host: string): string {
    match LastIndexOf(host, '.')
    case None => host
    case Some(i) => host[i + 1..]
  }

  /**
   * A host name of letters, digits, dots and hyphens that the URL parser only lower-cases:
   * no label is Punycode, and the last label starts with a letter, so the host does not end
   * in a number and is not read as an IPv4 address.
   */
  predicate IsPlainHost(host: string) {
    && host != []
    && (forall i :: 0 <= i < |host| ==> IsAsciiLetter(host[i]) || IsDigit(host[i]) || host[i] == '.' || host[i] == '-')
    && !HasPunycodeLabel(host)
    && LastLabel(host) != [] && IsAsciiLetter(LastLabel(host)[0])
  }

  /** A path, query or fragment that may follow a host, with no white space at its end. */
  predicate IsUrlTail(path: string) {
    path == [] || ((path[0] == '/' || path[0] == '?' || path[0] == '#') && !IsSpace(path[|path| - 1]))
  }

  /**
   * For a plain host followed by a path, with or without `https://`, the verdict is the
   * allow-list applied to the lower-cased host, whatever the path.
   */
  lemma LinkedInDecidedByHost(host: string, path: string)
    requires IsPlainHost(host) && IsUrlTail(path)
    ensures ValidateLinkedIn("https://" + host + path) == IsLinkedInHost(ToLower(host))
    ensures ValidateLinkedIn(host + path) == IsLinkedInHost(ToLower(host))
  {
    var w := host + path;
    var u := "https://" + w;
    assert u == "https://" + host + path;
    PlainUrlTrimmed(host, path);
    NormalizedPlainUrl(host, path);
    NormalizedHttpsUrl(w);
    HttpsHostname(host, path);
    ToLowerIdempotent(host);
  }

  /** A bare plain host with a path normalizes to its `https://` spelling. */
  lemma NormalizedPlainUrl(host: string, path: string)
    requires IsPlainHost(host) && IsUrlTail(path)
    ensures NormalizeUrl(host + path) == "https://" + (host + path)
  {
    var w := host + path;
    PlainUrlTrimmed(host, path);
    PlainHostHasNoScheme(host, path);
    NormalizeUnschemed(w);
  }

  /** The `https://` spelling of a plain host with a path is already normal. */
  lemma NormalizedHttpsUrl(w: string)
    requires w != [] && !IsSpace(w[|w| - 1])
    ensures NormalizeUrl("https://" + w) == "https://" + w
  {
    HttpsPrefixed(w);
    NormalizeSchemed("https://" + w);
  }

  lemma PlainUrlTrimmed(host: string, path: string)
    requires IsPlainHost(host) && IsUrlTail(path)
    ensures host + path != [] && !IsSpace((host + path)[0]) && !IsSpace((host + path)[|host + path| - 1])
  {
    var w := host + path;
    assert w[0] == host[0];
    if path == [] { assert w[|w| - 1] == host[|host| - 1]; }
  }

  /** A plain host, then a path, has no scheme prefix: the run of scheme characters stops
      at the path, which does not start with ':'. */
  lemma PlainHostHasNoScheme(host: string, path: string)
    requires IsPlainHost(host) && IsUrlTail(path)
    ensures SchemeColon(host + path).None?
  {
    var w := host + path;
    if IsAsciiLetter(w[0]) {
      var t := w[1..];
      assert forall i :: 0 <= i < |host| - 1 ==> t[i] == host[i + 1];
      assert |host| - 1 == |t| || t[|host| - 1] == path[0];
      SchemeRunStopsAt(t, |host| - 1);
      assert 1 + SchemeRun(t) == |host|;
    }
  }

  /** The host of `https://host/path` is `host`. */
  lemma HttpsHostname(host: string, path: string)
    requires IsPlainHost(host) && IsUrlTail(path)
    ensures UrlHostname("https://" + (host + path)) == Some(ToLower(host))
  {
    HttpsAuthority(host + path);
    PlainHostAuthority(host, path);
    PlainHostParses(host);
  }

  /** Behind the slashes, the authority of a plain host with a path is the host. */
  lemma PlainHostAuthority(host: string, path: string)
    requires IsPlainHost(host) && IsUrlTail(path)
    ensures TakeUntil(DropWhile("//" + (host + path), IsSlash), EndsSpecialAuthority) == host
  {
    var w := host + path;
    assert !IsSlash(w[0]) by { assert w[0] == host[0]; }
    DropTwoSlashes(w);
    HostThenDelimiter(host, path);
    TakeUntilStopsAt(w, EndsSpecialAuthority, |host|);
    assert w[..|host|] == host;
  }

  /** In a plain host followed by a path, the first authority delimiter is where the path starts. */
  lemma HostThenDelimiter(host: string, path: string)
    requires IsPlainHost(host) && IsUrlTail(path)
    ensures forall i :: 0 <= i < |host| ==> !EndsSpecialAuthority((host + path)[i])
    ensures |host| == |host + path| || EndsSpecialAuthority((host + path)[|host|])
  {
    var w := host + path;
    forall i | 0 <= i < |host|
      ensures !EndsSpecialAuthority(w[i])
    {
      assert w[i] == host[i];
    }
    if path != [] {
      assert w[|host|] == path[0];
    }
  }

  lemma DropTwoSlashes(w: string)
    requires w == [] || !IsSlash(w[0])
    ensures DropWhile("//" + w, IsSlash) == w
  {
    DropWhileStopsAt("//" + w, IsSlash, 2);
    assert ("//" + w)[2..] == w;
  }

  /** After `https://`, the authority is what follows the slashes, up to a delimiter. */
  lemma HttpsAuthority(w: string)
    ensures UrlHostname("https://" + w) == HostOfAuthority(TakeUntil(DropWhile("//" + w, IsSlash), EndsSpecialAuthority), true)
  {
    var u := "https://" + w;
    assert u[6..] == "//" + w;
    assert u[..5] == "https";
    assert ToLower(u[..5]) == "https";
    HttpsPrefixed(w);
    SpecialUrlHostname(u, 5);
  }

  /** The host of a URL with a special scheme comes from the authority after the slashes. */
  lemma SpecialUrlHostname(u: string, k: nat)
    requires SchemeColon(u) == Some(k) && IsSpecialScheme(ToLower(u[..k])) && ToLower(u[..k]) != "file"
    ensures UrlHostname(u) == HostOfAuthority(TakeUntil(DropWhile(u[k + 1..], IsSlash), EndsSpecialAuthority), true)
  {
    assert UrlHostname(u) == SchemeHostname(ToLower(u[..k]), u[k + 1..]);
  }

  /** A plain host is its own authority: no user info, no port, nothing forbidden. */
  lemma PlainHostParses(host: string)
    requires IsPlainHost(host)
    ensures HostOfAuthority(host, true) == Some(ToLower(host))
  {
    PlainHostChars(host);
    assert LastIndexOf(host, '@').None? && LastIndexOf(host, ':').None?;
    assert AllDigits("") && DecimalValue("") == 0;
  }

  lemma PlainHostChars(host: string)
    requires IsPlainHost(host)
    ensures '@' !in host && ':' !in host && !HasForbiddenHostChar(host, true)
  {
    forall i | 0 <= i < |host|
      ensures host[i] != '@' && host[i] != ':' && !IsForbiddenDomainChar(host[i])
    {
      HostCharAllowed(host[i]);
    }
  }

  /** Letters, digits, '.' and '-' are allowed in a domain. */
  lemma HostCharAllowed(c: char)
    requires IsAsciiLetter(c) || IsDigit(c) || c == '.' || c == '-'
    ensures c != '@' && c != ':' && !IsForbiddenDomainChar(c)
  {
  }

  /** An authority with no delimiter in it, then a path: the authority is what comes first. */
  lemma AuthorityThenTail(a: string, path: string)
    requires forall i :: 0 <= i < |a| ==> !EndsSpecialAuthority(a[i])
    requires IsUrlTail(path)
    ensures TakeUntil(a + path, EndsSpecialAuthority) == a
  {
    var w := a + path;
    forall i | 0 <= i < |a|
      ensures !EndsSpecialAuthority(w[i])
    {
      assert w[i] == a[i];
    }
    if path != [] {
      assert w[|a|] == path[0];
    }
    TakeUntilStopsAt(w, EndsSpecialAuthority, |a|);
    assert w[..|a|] == a;
  }

  /** A port above 65535 makes the authority unparsable. */
  lemma PortAboveRangeRefused(host: string, port: string)
    requires IsPlainHost(host) && AllDigits(port) && DecimalValue(port) > MaxPort
    ensures HostOfAuthority(host + ":" + port, true) == None
  {
    var a := host + ":" + port;
    PlainHostChars(host);
    DigitsHaveNoDelimiter(port);
    assert a[|host| + 1..] == port;
    assert a[|host|] == ':';
    var c := LastIndexOf(a, ':');
    assert c == Some(|host|);
  }

  lemma DigitsHaveNoDelimiter(port: string)
    requires AllDigits(port)
    ensures '@' !in port && ':' !in port
  {
  }

  /** `https://host:port/path` with a port above 65535 is refused, whatever the host. */
  lemma LinkedInPortOutOfRange(host: string, port: string, path: string)
    requires IsPlainHost(host) && AllDigits(port) && DecimalValue(port) > MaxPort && IsUrlTail(path)
    ensures !ValidateLinkedIn("https://" + (host + ":" + port + path))
  {
    assert port != [];
    PortUrlNormal(host, port, path);
    PortUrlHostname(host, port, path);
  }

  lemma PortUrlHostname(host: string, port: string, path: string)
    requires IsPlainHost(host) && AllDigits(port) && DecimalValue(port) > MaxPort && IsUrlTail(path)
    ensures UrlHostname("https://" + (host + ":" + port + path)) == None
  {
    var w := host + ":" + port + path;
    HttpsAuthority(w);
    PortAuthority(host, port, path);
    PortAboveRangeRefused(host, port);
  }

  /** Behind the slashes, the authority of `host:port` followed by a path is `host:port`. */
  lemma PortAuthority(host: string, port: string, path: string)
    requires IsPlainHost(host) && AllDigits(port) && IsUrlTail(path)
    ensures TakeUntil(DropWhile("//" + (host + ":" + port + path), IsSlash), EndsSpecialAuthority) == host + ":" + port
  {
    var a := host + ":" + port;
    var w := a + path;
    assert w[0] == host[0];
    DropTwoSlashes(w);
    PortAuthorityUndelimited(host, port);
    AuthorityThenTail(a, path);
  }

  lemma PortUrlNormal(host: string, port: string, path: string)
    requires IsPlainHost(host) && port != [] && AllDigits(port) && IsUrlTail(path)
    ensures NormalizeUrl("https://" + (host + ":" + port + path)) == "https://" + (host + ":" + port + path)
  {
    var w := host + ":" + port + path;
    assert w[|w| - 1] == if path == [] then port[|port| - 1] else path[|path| - 1];
    NormalizedHttpsUrl(w);
  }

  lemma PortAuthorityUndelimited(host: string, port: string)
    requires IsPlainHost(host) && AllDigits(port)
    ensures forall i :: 0 <= i < |host + ":" + port| ==> !EndsSpecialAuthority((host + ":" + port)[i])
  {
    var a := host + ":" + port;
    forall i | 0 <= i < |a|
      ensures !EndsSpecialAuthority(a[i])
    {
      if i < |host| { assert a[i] == host[i]; }
      else if i > |host| { assert a[i] == port[i - |host| - 1]; }
    }
  }

  /** `file://` followed by anything has the scheme `file`, ending at index 4. */
  lemma FilePrefixed(v: string)
    ensures SchemeColon("file://" + v) == Some(4)
  {
    var u := "file://" + v;
    assert u[0] == 'f' && u[1] == 'i' && u[2] == 'l' && u[3] == 'e' && u[4] == ':';
    assert u[1..][..4] == "ile:";
    SchemeRunStopsAt(u[1..], 3);
  }

  /** After `file://`, the host is the text up to the first delimiter: no user info or port. */
  lemma FileHostnameOf(w: string)
    ensures UrlHostname("file://" + w) == FileHostname("//" + w)
  {
    var u := "file://" + w;
    FilePrefixed(w);
    assert u[..4] == "file";
    assert ToLower(u[..4]) == "file";
    assert u[5..] == "//" + w;
  }

  /** A `file:` URL with user info in its host is refused. */
  lemma FileUserInfoRefused(w: string, a: string, path: string)
    requires '@' in a && (forall i :: 0 <= i < |a| ==> !EndsSpecialAuthority(a[i])) && IsUrlTail(path)
    requires w == a + path
    ensures UrlHostname("file://" + w) == None
  {
    FileHostnameOf(w);
    assert ("//" + w)[2..] == w;
    AuthorityThenTail(a, path);
    var i :| 0 <= i < |a| && a[i] == '@';
    assert IsForbiddenDomainChar(a[i]);
    assert !IsDriveLetter(a) by {
      if |a| == 2 { assert a[0] == '@' || a[1] == '@'; }
    }
  }

  /** A `file:` URL whose host carries user info is not a profile, even for a LinkedIn host. */
  lemma LinkedInFileUserInfoRefused(a: string, path: string)
    requires '@' in a && (forall i :: 0 <= i < |a| ==> !EndsSpecialAuthority(a[i])) && IsUrlTail(path)
    requires a + path != [] && !IsSpace((a + path)[|a + path| - 1])
    ensures !ValidateLinkedIn("file://" + (a + path))
  {
    var w := a + path;
    var u := "file://" + w;
    FilePrefixed(w);
    assert u[|u| - 1] == w[|w| - 1];
    NormalizeSchemed(u);
    FileUserInfoRefused(w, a, path);
  }

  // ----- worked examples -----

  /** A host of letters and dots whose last label is not empty is plain. */
  lemma DottedHostIsPlain(host: string, d: nat)
    requires forall i :: 0 <= i < |host| ==> IsAsciiLetter(host[i]) || host[i] == '.'
    requires d + 1 < |host| && host[d] == '.' && '.' !in host[d + 1..]
    ensures IsPlainHost(host)
  {
    var r := LastIndexOf(host, '.');
    assert r == Some(d);
    assert LastLabel(host) == host[d + 1..];
    assert host[d + 1..][0] == host[d + 1];
    forall i: nat | i < |host|
      ensures !PunycodeLabelAt(host, i)
    {
      if i + 4 <= |host| { assert host[i + 2] != '-'; }
    }
  }

  lemma LinkedInAcceptsBareProfile(url: string)
    requires url == "linkedin.com/in/x"
    ensures ValidateLinkedIn(url)
  {
    var host, path := url[..12], url[12..];
    assert host == "linkedin.com" && path == "/in/x";
    assert url == host + path;
    BareProfileAccepted(host, path);
  }

  lemma BareProfileAccepted(host: string, path: string)
    requires host == "linkedin.com" && path == "/in/x"
    ensures ValidateLinkedIn(host + path)
  {
    LinkedInHostOnAllowList(host);
    assert IsUrlTail(path);
    LinkedInDecidedByHost(host, path);
  }

  lemma LinkedInHostOnAllowList(host: string)
    requires host == "linkedin.com"
    ensures IsPlainHost(host) && IsLinkedInHost(ToLower(host))
  {
    assert forall i :: 0 <= i < |host| ==> IsAsciiLetter(host[i]) || host[i] == '.';
    assert host[9..] == "com";
    DottedHostIsPlain(host, 8);
    assert ToLower(host) == host;
  }

  lemma LinkedInAcceptsSubdomain(url: string)
    requires url == "https://pt.linkedin.com/in/x"
    ensures ValidateLinkedIn(url)
  {
    var host, path := url[8..23], url[23..];
    assert host == "pt.linkedin.com" && path == "/in/x";
    assert url == "https://" + host + path;
    SubdomainAccepted(host, path);
  }

  lemma SubdomainAccepted(host: string, path: string)
    requires host == "pt.linkedin.com" && path == "/in/x"
    ensures ValidateLinkedIn("https://" + host + path)
  {
    SubdomainOnAllowList(host);
    assert IsUrlTail(path);
    LinkedInDecidedByHost(host, path);
  }

  lemma SubdomainOnAllowList(host: string)
    requires host == "pt.linkedin.com"
    ensures IsPlainHost(host) && IsLinkedInHost(ToLower(host))
  {
    assert forall i :: 0 <= i < |host| ==> IsAsciiLetter(host[i]) || host[i] == '.';
    assert host[12..] == "com";
    DottedHostIsPlain(host, 11);
    assert ToLower(host) == host;
    assert host[2..] == ".linkedin.com";
  }

  lemma LinkedInAcceptsShortLink(url: string)
    requires url == "https://lnkd.in/abc"
    ensures ValidateLinkedIn(url)
  {
    var host, path := url[8..15], url[15..];
    assert host == "lnkd.in" && path == "/abc";
    assert url == "https://" + host + path;
    ShortLinkAccepted(host, path);
  }

  lemma ShortLinkAccepted(host: string, path: string)
    requires host == "lnkd.in" && path == "/abc"
    ensures ValidateLinkedIn("https://" + host + path)
  {
    ShortHostOnAllowList(host);
    assert IsUrlTail(path);
    LinkedInDecidedByHost(host, path);
  }

  lemma ShortHostOnAllowList(host: string)
    requires host == "lnkd.in"
    ensures IsPlainHost(host) && IsLinkedInHost(ToLower(host))
  {
    assert forall i :: 0 <= i < |host| ==> IsAsciiLetter(host[i]) || host[i] == '.';
    assert host[5..] == "in";
    DottedHostIsPlain(host, 4);
    assert ToLower(host) == host;
  }

  lemma LinkedInRefusesOtherHost(url: string)
    requires url == "https://example.com"
    ensures !ValidateLinkedIn(url)
  {
    var host := url[8..];
    assert host == "example.com";
    assert url == "https://" + host + "";
    OtherHostRefused(host, "");
  }

  lemma OtherHostRefused(host: string, path: string)
    requires host == "example.com" && path == ""
    ensures !ValidateLinkedIn("https://" + host + path)
  {
    ExampleHostIsPlain(host);
    assert IsUrlTail(path);
    LinkedInDecidedByHost(host, path);
  }

  lemma ExampleHostIsPlain(host: string)
    requires host == "example.com"
    ensures IsPlainHost(host) && !IsLinkedInHost(ToLower(host))
  {
    assert forall i :: 0 <= i < |host| ==> IsAsciiLetter(host[i]) || host[i] == '.';
    assert host[8..] == "com";
    DottedHostIsPlain(host, 7);
    assert ToLower(host) == host;
    assert !EndsWith(host, ".linkedin.com");
  }

  /** Text with a space in it becomes a host the URL parser refuses, so it is not a profile. */
  lemma LinkedInRefusesNonUrl(url: string)
    requires url == "not a url"
    ensures !ValidateLinkedIn(url)
  {
    NonUrlNormalized(url);
    NonUrlHasNoHost(url);
  }

  lemma NonUrlNormalized(url: string)
    requires url == "not a url"
    ensures NormalizeUrl(url) == "https://" + url
  {
    assert !IsSpace(url[0]) && !IsSpace(url[|url| - 1]);
    SchemeRunStopsAt(url[1..], 2);
    NormalizeUnschemed(url);
  }

  lemma NonUrlHasNoHost(url: string)
    requires url == "not a url"
    ensures UrlHostname("https://" + url).None?
  {
    HttpsAuthority(url);
    DropTwoSlashes(url);
    NonUrlAuthorityRefused(url);
  }

  lemma NonUrlAuthorityRefused(url: string)
    requires url == "not a url"
    ensures HostOfAuthority(TakeUntil(url, EndsSpecialAuthority), true).None?
  {
    NonUrlHasNoDelimiter(url);
    assert LastIndexOf(url, '@').None? && LastIndexOf(url, ':').None?;
    assert IsForbiddenHostChar(url[3]);
  }

  lemma NonUrlHasNoDelimiter(url: string)
    requires url == "not a url"
    ensures TakeUntil(url, EndsSpecialAuthority) == url
    ensures '@' !in url && ':' !in url
  {
    NonUrlChars(url);
    TakeUntilStopsAt(url, EndsSpecialAuthority, |url|);
    assert url[..|url|] == url;
  }

  lemma NonUrlChars(url: string)
    requires url == "not a url"
    ensures forall i :: 0 <= i < |url| ==> IsAsciiLetter(url[i]) || url[i] == ' '
  {
    assert url[0] == 'n' && url[1] == 'o' && url[2] == 't' && url[3] == ' ' && url[4] == 'a';
    assert url[5] == ' ' && url[6] == 'u' && url[7] == 'r' && url[8] == 'l';
  }
}
