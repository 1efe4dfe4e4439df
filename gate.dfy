/**
 * The request gate (src/index.ts:46-67): the checks the handler runs, in order,
 * on the `image` query value before it forwards anything, and the local
 * responses it answers with when one fails.
 */
module RequestGate {
  import opened Wrappers
  import opened Text

  /** The two parts of a parsed image URL that the handler inspects. */
  datatype ParsedUrl = ParsedUrl(hostname: string, pathname: string)

  /** Why the handler answers by itself instead of forwarding. */
  datatype Rejection = MissingImage | InvalidUrl | DomainNotAllowed | DisallowedExtension

  function Status(r: Rejection): int {
    match r
    case DomainNotAllowed => 403
    case _ => 400
  }

  function Body(r: Rejection): string {
    match r
    case MissingImage => "Missing \"image\" value"
    case InvalidUrl => "Invalid URL"
    case DomainNotAllowed => "Domain not allowed"
    case DisallowedExtension => "Disallowed file extension"
  }

  /**
   * The literal text each allowlist pattern searches for. The patterns are not
   * anchored and `test` searches, so a leading `.*` adds nothing: a pattern
   * matches a hostname exactly when its text occurs in it, case-sensitively.
   */
  const AllowedHostPatterns: seq<string> := [".ethancoward.dev", "ethancoward.com", "ecwrd.com", "i.scdn.co"]

  /** The alternatives of `\.(jpe?g|png|gif|webp|svg)$`, in lower case. */
  const AllowedExtensions: seq<string> := ["jpg", "jpeg", "png", "gif", "webp", "svg"]

  /** `patterns.some(p => p.test(host))` */
  function SomeMatches(host: string, patterns: seq<string>): (r: bool)
    ensures r <==> exists k :: 0 <= k < |patterns| && Contains(host, patterns[k])
  {
    if |patterns| == 0 then false
    else
      var rest := SomeMatches(host, patterns[1..]);
      assert rest <==> exists k :: 1 <= k < |patterns| && Contains(host, patterns[k]) by {
        assert forall k :: 1 <= k < |patterns| ==> patterns[k] == patterns[1..][k - 1];
      }
      Contains(host, patterns[0]) || rest
  }

  predicate HostAllowed(hostname: string) {
    SomeMatches(hostname, AllowedHostPatterns)
  }

  /** The path ends in `.` and an allowed extension, ignoring the case of ASCII letters. */
  predicate ExtAllowed(pathname: string) {
    exists ext | ext in AllowedExtensions :: HasSuffix(LowerAscii(pathname), "." + ext)
  }

  /**
   * The gate. `parse` stands for `new URL(...)`: none when it throws. The checks
   * run in the handler's order (missing value, URL syntax, host, extension) and
   * the first that fails decides; when all pass, the raw `image` value goes on.
   */
  function Gate(image: Option<string>, parse: string -> Option<ParsedUrl>): (r: Result<string, Rejection>)
    ensures r.Success? <==>
              && image.Some? && image.value != ""
              && parse(image.value).Some?
              && HostAllowed(parse(image.value).value.hostname)
              && ExtAllowed(parse(image.value).value.pathname)
    ensures r.Success? ==> r.value == image.value
  {
    if image.None? || image.value == "" then Failure(MissingImage)
    else
      match parse(image.value)
      case None => Failure(InvalidUrl)
      case Some(url) =>
        if !HostAllowed(url.hostname) then Failure(DomainNotAllowed)
        else if !ExtAllowed(url.pathname) then Failure(DisallowedExtension)
        else Success(image.value)
  }

  /**
   * A hostname that embeds an allowed hostname anywhere is itself allowed:
   * `evil-ecwrd.com` and `ecwrd.com.attacker.example` pass the allowlist.
   */
  lemma {:induction false} AllowedHostEmbedded(prefix: string, hostname: string, suffix: string)
    requires HostAllowed(hostname)
    ensures HostAllowed(prefix + hostname + suffix)
  {
    var k :| 0 <= k < |AllowedHostPatterns| && Contains(hostname, AllowedHostPatterns[k]);
    var p := AllowedHostPatterns[k];
    var i: nat :| OccursAt(hostname, p, i);
    var s := prefix + hostname + suffix;
    assert s[|prefix| + i..|prefix| + i + |p|] == hostname[i..i + |p|];
    assert OccursAt(s, p, |prefix| + i);
    assert Contains(s, p);
  }

  /** A hostname in which some pattern's text occurs passes the allowlist. */
  lemma HostAllowedAt(hostname: string, k: nat, i: nat)
    requires k < |AllowedHostPatterns| && OccursAt(hostname, AllowedHostPatterns[k], i)
    ensures HostAllowed(hostname)
  {
    assert Contains(hostname, AllowedHostPatterns[k]);
  }

  /** Hosts that merely contain an allowed name pass, as the unanchored patterns let them. */
  lemma SpoofedHostsAllowed()
    ensures HostAllowed("evil-ecwrd.com")
    ensures HostAllowed("ecwrd.com.attacker.example")
  {
    assert OccursAt("evil-ecwrd.com", AllowedHostPatterns[2], 5);
    HostAllowedAt("evil-ecwrd.com", 2, 5);
    assert OccursAt("ecwrd.com.attacker.example", AllowedHostPatterns[2], 0);
    HostAllowedAt("ecwrd.com.attacker.example", 2, 0);
  }

  /**
   * Matching is case-sensitive: the upper-case spelling of an allowed host is
   * refused. `new URL` lower-cases the hosts of http(s) URLs, so this matters
   * only for the opaque hosts of other schemes, which it leaves as written.
   */
  lemma UpperCaseHostRefused()
    ensures !HostAllowed("ECWRD.COM")
  {
    var host := "ECWRD.COM";
    forall k | 0 <= k < |AllowedHostPatterns| ensures !Contains(host, AllowedHostPatterns[k]) {
      assert 'c' in AllowedHostPatterns[k];
      MissingCharNotContained(host, AllowedHostPatterns[k], 'c');
    }
  }

  /** Helper: every pattern but the first contains `m` or `s`, so a host without either letter needs the first. */
  lemma HostAllowedWithoutMs(hostname: string)
    requires 'm' !in hostname && 's' !in hostname
    ensures HostAllowed(hostname) <==> Contains(hostname, ".ethancoward.dev")
  {
    var p := AllowedHostPatterns;
    assert 'm' in p[1] && 'm' in p[2] && 's' in p[3];
    MissingCharNotContained(hostname, p[1], 'm');
    MissingCharNotContained(hostname, p[2], 'm');
    MissingCharNotContained(hostname, p[3], 's');
  }

  /** The first pattern needs a label before `.ethancoward.dev`: the bare domain is refused. */
  lemma BareDomainRefused(hostname: string)
    requires hostname == "ethancoward.dev"
    ensures !HostAllowed(hostname)
  {
    LongerNotContained(hostname, ".ethancoward.dev");
    HostAllowedWithoutMs(hostname);
  }

  lemma FoldAsciiIdempotent(s: string)
    ensures LowerAscii(LowerAscii(s)) == LowerAscii(s)
  {
  }

  /** Folding `.` gives `.` and nothing else. */
  lemma FoldDot(c: char)
    ensures FoldAscii(c) == '.' <==> c == '.'
  {
  }

  lemma LowerSlice(s: string, k: nat)
    requires k <= |s|
    ensures LowerAscii(s)[k..] == LowerAscii(s[k..])
  {
  }

  /** The text after the last `.` of a path. */
  predicate ExtensionAt(pathname: string, j: nat) {
    && j < |pathname| && pathname[j] == '.'
    && (forall m :: j < m < |pathname| ==> pathname[m] != '.')
  }

  lemma ExtAllowedGivesLastDot(pathname: string, ext: string)
    requires ext in AllowedExtensions && HasSuffix(LowerAscii(pathname), "." + ext)
    ensures |ext| + 1 <= |pathname|
    ensures ExtensionAt(pathname, |pathname| - |ext| - 1)
    ensures LowerAscii(pathname[|pathname| - |ext| - 1 + 1..]) == ext
  {
    var lower := LowerAscii(pathname);
    var j := |pathname| - |ext| - 1;
    assert lower[j] == ("." + ext)[0];
    FoldDot(pathname[j]);
    LowerSlice(pathname, j + 1);
    assert forall m :: 0 <= m < |ext| ==> ext[m] != '.';
    forall m | j < m < |pathname| ensures pathname[m] != '.' {
      assert lower[m] == ext[m - j - 1];
      FoldDot(pathname[m]);
    }
  }

  lemma LastDotGivesExtAllowed(pathname: string, j: nat)
    requires ExtensionAt(pathname, j) && LowerAscii(pathname[j + 1..]) in AllowedExtensions
    ensures ExtAllowed(pathname)
  {
    var lower := LowerAscii(pathname);
    var ext := LowerAscii(pathname[j + 1..]);
    LowerSlice(pathname, j + 1);
    assert lower[j..] == [lower[j]] + lower[j + 1..];
    assert HasSuffix(lower, "." + ext);
  }

  /**
   * The regular-expression test equals the usual reading of "extension": the
   * path has a `.`, and the text after its last `.`, lower-cased, is one of the
   * allowed extensions.
   */
  lemma ExtAllowedByLastDot(pathname: string)
    ensures ExtAllowed(pathname) <==>
              exists j: nat :: ExtensionAt(pathname, j) && LowerAscii(pathname[j + 1..]) in AllowedExtensions
  {
    if ExtAllowed(pathname) {
      var ext :| ext in AllowedExtensions && HasSuffix(LowerAscii(pathname), "." + ext);
      ExtAllowedGivesLastDot(pathname, ext);
    }
    if exists j: nat :: ExtensionAt(pathname, j) && LowerAscii(pathname[j + 1..]) in AllowedExtensions {
      var j: nat :| ExtensionAt(pathname, j) && LowerAscii(pathname[j + 1..]) in AllowedExtensions;
      LastDotGivesExtAllowed(pathname, j);
    }
  }

  /** The extension test ignores the case of ASCII letters. */
  lemma ExtAllowedIgnoresCase(pathname: string)
    ensures ExtAllowed(pathname) <==> ExtAllowed(LowerAscii(pathname))
  {
    FoldAsciiIdempotent(pathname);
  }
}
