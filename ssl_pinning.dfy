/** The certificate-pinning decision of the Android client's `onReceivedSslError`. For a
  * certificate whose host does not match (`SSL_IDMISMATCH`) the client proceeds only when
  * the page URL matches the pattern
  *   `^(https?://)?([a-zA-Z0-9_-]+\.)?(<host1>|<host2>|...)(/.*)?$`
  * built from the configured pinning hosts, with every dot of a host escaped. Any other
  * error, or a missing handler, is left to the engine's default handling.
  */
module SslPinning {
  import opened Strings

  /** `SslError.SSL_IDMISMATCH`: the certificate's host name does not match. */
  const SSL_IDMISMATCH := 2

  /** The error reported by the engine: its primary error code and the page URL. */
  datatype SslError = SslError(primaryError: int, url: string)

  /** What the client does with the error. `DeferToDefault` stands for handing the error
    * to the base client, whose default handling cancels the load. */
  datatype SslOutcome = DeferToDefault | Proceed | Cancel

  // ---------------------------------------------------------------------------
  // The pattern, stated declaratively
  // ---------------------------------------------------------------------------

  /** `[a-zA-Z0-9_-]` */
  predicate IsLabelChar(c: char) {
    ('a' <= c <= 'z') || ('A' <= c <= 'Z') || ('0' <= c <= '9') || c == '_' || c == '-'
  }

  /** The characters a regular-expression `.` does not match (the line terminators of
    * `java.util.regex` without the DOTALL flag). */
  predicate IsLineTerminator(c: char) {
    c == '\n' || c == '\r' || c == '\U{85}' || c == '\U{2028}' || c == '\U{2029}'
  }

  /** `(https?://)?` */
  predicate IsScheme(s: string) {
    s == "" || s == "http://" || s == "https://"
  }

  /** `([a-zA-Z0-9_-]+\.)?`: nothing, or one non-empty label followed by a dot. */
  predicate IsSubdomain(s: string) {
    s == "" || (|s| >= 2 && s[|s| - 1] == '.' && forall j :: 0 <= j < |s| - 1 ==> IsLabelChar(s[j]))
  }

  /** `(/.*)?`: nothing, or a slash followed by anything up to the end of the line. */
  predicate IsPath(s: string) {
    s == [] || (s[0] == '/' && forall j :: 1 <= j < |s| ==> !IsLineTerminator(s[j]))
  }

  /** The whole URL splits into scheme, sub-domain, one of the hosts, and path. */
  ghost predicate PatternMatches(url: string, hosts: seq<string>) {
    exists a, b, c | 0 <= a <= b <= c <= |url| ::
      IsScheme(url[..a]) && IsSubdomain(url[a..b]) && url[b..c] in hosts && IsPath(url[c..])
  }

  // ---------------------------------------------------------------------------
  // The matcher
  // ---------------------------------------------------------------------------

  /** The number of label characters at the start of `s`. */
  function LabelLength(s: string): (n: nat)
    ensures n <= |s|
    ensures forall j :: 0 <= j < n ==> IsLabelChar(s[j])
    ensures n < |s| ==> !IsLabelChar(s[n])
  {
    if s != [] && IsLabelChar(s[0]) then 1 + LabelLength(s[1..]) else 0
  }

  /** One of the hosts, then a path, make up all of `r`. */
  predicate HostThenPath(r: string, hosts: seq<string>) {
    exists i | 0 <= i < |hosts| :: hosts[i] <= r && IsPath(r[|hosts[i]|..])
  }

  /** What follows the scheme: an optional label and dot, then host and path. The label
    * can only be the whole leading run of label characters, as a dot is not one. */
  predicate AfterScheme(r: string, hosts: seq<string>) {
    HostThenPath(r, hosts) ||
    (var k := LabelLength(r); 0 < k < |r| && r[k] == '.' && HostThenPath(r[k + 1..], hosts))
  }

  /** `pattern.matches(url)` */
  predicate Matches(url: string, hosts: seq<string>) {
    || AfterScheme(url, hosts)
    || ("http://" <= url && AfterScheme(url[7..], hosts))
    || ("https://" <= url && AfterScheme(url[8..], hosts))
  }

  lemma LabelLengthAt(s: string, k: nat)
    requires k < |s| && !IsLabelChar(s[k])
    requires forall j :: 0 <= j < k ==> IsLabelChar(s[j])
    ensures LabelLength(s) == k
  {
  }

  lemma HostThenPathSound(url: string, hosts: seq<string>, b: nat)
    requires b <= |url| && HostThenPath(url[b..], hosts)
    ensures exists c | b <= c <= |url| :: url[b..c] in hosts && IsPath(url[c..])
  {
    var r := url[b..];
    var i :| 0 <= i < |hosts| && hosts[i] <= r && IsPath(r[|hosts[i]|..]);
    var c := b + |hosts[i]|;
    assert url[b..c] == hosts[i];
    assert url[c..] == r[|hosts[i]|..];
  }

  lemma PatternWitness(url: string, hosts: seq<string>, a: nat, b: nat, c: nat)
    requires a <= b <= c <= |url|
    requires IsScheme(url[..a]) && IsSubdomain(url[a..b]) && url[b..c] in hosts && IsPath(url[c..])
    ensures PatternMatches(url, hosts)
  {
  }

  lemma AfterSchemeSound(url: string, hosts: seq<string>, a: nat)
    requires a <= |url| && IsScheme(url[..a]) && AfterScheme(url[a..], hosts)
    ensures PatternMatches(url, hosts)
  {
    var r := url[a..];
    if HostThenPath(r, hosts) {
      HostThenPathSound(url, hosts, a);
      var c :| a <= c <= |url| && url[a..c] in hosts && IsPath(url[c..]);
      PatternWitness(url, hosts, a, a, c);
    } else {
      SubdomainSound(url, hosts, a);
    }
  }

  lemma SubdomainSound(url: string, hosts: seq<string>, a: nat)
    requires a <= |url| && IsScheme(url[..a])
    requires var r := url[a..]; var k := LabelLength(r);
      0 < k < |r| && r[k] == '.' && HostThenPath(r[k + 1..], hosts)
    ensures PatternMatches(url, hosts)
  {
    var r := url[a..];
    var k := LabelLength(r);
    var b := a + k + 1;
    assert url[b..] == r[k + 1..];
    HostThenPathSound(url, hosts, b);
    var c :| b <= c <= |url| && url[b..c] in hosts && IsPath(url[c..]);
    LabelDotIsSubdomain(r);
    assert url[a..b] == r[..k + 1];
    PatternWitness(url, hosts, a, b, c);
  }

  lemma LabelDotIsSubdomain(r: string)
    requires var k := LabelLength(r); 0 < k < |r| && r[k] == '.'
    ensures IsSubdomain(r[..LabelLength(r) + 1])
  {
  }

  lemma AfterSchemeComplete(url: string, hosts: seq<string>, a: nat, b: nat, c: nat)
    requires 0 <= a <= b <= c <= |url|
    requires IsSubdomain(url[a..b]) && url[b..c] in hosts && IsPath(url[c..])
    ensures AfterScheme(url[a..], hosts)
  {
    var r := url[a..];
    var rest := url[b..];
    var i :| 0 <= i < |hosts| && hosts[i] == url[b..c];
    assert hosts[i] <= rest;
    assert rest[|hosts[i]|..] == url[c..];
    assert HostThenPath(rest, hosts);
    if a < b {
      var k := b - a - 1;
      var sub := url[a..b];
      assert r[k] == sub[|sub| - 1] == '.';
      assert forall j :: 0 <= j < k ==> r[j] == sub[j];
      LabelLengthAt(r, k);
      assert r[k + 1..] == rest;
    } else {
      assert r == rest;
    }
  }

  lemma MatchesSound(url: string, hosts: seq<string>)
    requires Matches(url, hosts)
    ensures PatternMatches(url, hosts)
  {
    if AfterScheme(url, hosts) {
      AfterSchemeSound(url, hosts, 0);
    } else if "http://" <= url && AfterScheme(url[7..], hosts) {
      assert url[..7] == "http://";
      AfterSchemeSound(url, hosts, 7);
    } else {
      assert url[..8] == "https://";
      AfterSchemeSound(url, hosts, 8);
    }
  }

  lemma MatchesComplete(url: string, hosts: seq<string>)
    requires PatternMatches(url, hosts)
    ensures Matches(url, hosts)
  {
    var a, b, c :| 0 <= a <= b <= c <= |url| &&
      IsScheme(url[..a]) && IsSubdomain(url[a..b]) && url[b..c] in hosts && IsPath(url[c..]);
    AfterSchemeComplete(url, hosts, a, b, c);
    if a == 7 {
      assert "http://" <= url;
    } else if a == 8 {
      assert "https://" <= url;
    } else {
      assert url[a..] == url;
    }
  }

  /** The matcher accepts exactly the URLs the pattern describes. */
  lemma MatchesIff(url: string, hosts: seq<string>)
    ensures Matches(url, hosts) <==> PatternMatches(url, hosts)
  {
    if Matches(url, hosts) {
      MatchesSound(url, hosts);
    }
    if PatternMatches(url, hosts) {
      MatchesComplete(url, hosts);
    }
  }

  // ---------------------------------------------------------------------------
  // The decision
  // ---------------------------------------------------------------------------

  /** `onReceivedSslError(view, handler, error)`: an `SSL_IDMISMATCH` error with a handler
    * proceeds when the URL matches the pinning pattern and is cancelled otherwise,
    * including when no host is configured; everything else goes to the base client. */
  function OnReceivedSslError(error: Option<SslError>, handlerPresent: bool, sslPiningHosts: seq<string>)
    : (r: SslOutcome)
    ensures r == DeferToDefault <==>
      !(error.Some? && error.value.primaryError == SSL_IDMISMATCH && handlerPresent)
    ensures r == Proceed ==> |sslPiningHosts| > 0 && Matches(error.value.url, sslPiningHosts)
  {
    if error.Some? && error.value.primaryError == SSL_IDMISMATCH then
      if !handlerPresent then DeferToDefault
      else if |sslPiningHosts| > 0 then
        if Matches(error.value.url, sslPiningHosts) then Proceed else Cancel
      else Cancel
    else DeferToDefault
  }

  /** A host-mismatch error is let through exactly when its URL is one of the pinned
    * hosts, optionally behind `http://` or `https://` and one sub-domain label, optionally
    * followed by a path. */
  lemma OnReceivedSslErrorProceeds(error: SslError, sslPiningHosts: seq<string>)
    requires error.primaryError == SSL_IDMISMATCH
    ensures OnReceivedSslError(Some(error), true, sslPiningHosts) == Proceed
      <==> PatternMatches(error.url, sslPiningHosts)
    ensures OnReceivedSslError(Some(error), true, sslPiningHosts) == Cancel
      <==> !PatternMatches(error.url, sslPiningHosts)
  {
    MatchesIff(error.url, sslPiningHosts);
  }

  /** One sub-domain label and a path are accepted. */
  lemma SubdomainAndPathProceed(url: string, hosts: seq<string>)
    requires url == "https://api.example.com/v1" && hosts == ["example.com"]
    ensures OnReceivedSslError(Some(SslError(2, url)), true, hosts) == Proceed
  {
    assert "https://" <= url;
    LabelThenHostThenPath(url[8..], hosts);
  }

  lemma LabelThenHostThenPath(r: string, hosts: seq<string>)
    requires r == "api.example.com/v1" && hosts == ["example.com"]
    ensures AfterScheme(r, hosts)
  {
    LabelLengthAt(r, 3);
    assert r[3] == '.';
    var rest := r[4..];
    assert rest == "example.com/v1";
    assert hosts[0] <= rest && rest[11..] == "/v1";
    SingleHost(rest, hosts[0]);
  }

  /** No host starts with the first character of `r`. */
  lemma NoHostAt(r: string, hosts: seq<string>)
    requires |r| > 0 && forall i :: 0 <= i < |hosts| ==> |hosts[i]| > 0 && hosts[i][0] != r[0]
    ensures !HostThenPath(r, hosts)
  {
  }

  /** With a single pinned host, that host and a path must make up all of `r`. */
  lemma SingleHost(r: string, h: string)
    ensures HostThenPath(r, [h]) <==> h <= r && IsPath(r[|h|..])
  {
    if h <= r && IsPath(r[|h|..]) {
      assert [h][0] == h;
    }
  }

  /** After an `https://` scheme, a label that is not followed by a dot and is not a host
    * leaves nothing to match. */
  lemma HttpsOnly(url: string, hosts: seq<string>)
    requires "https://" <= url && forall i :: 0 <= i < |hosts| ==> |hosts[i]| > 0 && hosts[i][0] != 'h'
    ensures Matches(url, hosts) <==> AfterScheme(url[8..], hosts)
  {
    assert url[4] == 's';
    LabelLengthAt(url, 5);
    NoHostAt(url, hosts);
  }

  /** A deeper sub-domain is cancelled: only one label may precede the host. */
  lemma DeeperSubdomainCancels(url: string, hosts: seq<string>)
    requires url == "https://a.b.example.com" && hosts == ["example.com"]
    ensures OnReceivedSslError(Some(SslError(2, url)), true, hosts) == Cancel
  {
    TwoLabelsBeforeHost(url[8..], hosts);
    HttpsOnly(url, hosts);
  }

  lemma TwoLabelsBeforeHost(r: string, hosts: seq<string>)
    requires r == "a.b.example.com" && hosts == ["example.com"]
    ensures !AfterScheme(r, hosts)
  {
    LabelLengthAt(r, 1);
    NoHostAt(r, hosts);
    NoHostAt(r[2..], hosts);
  }

  /** A host name that merely starts with a pinned host is cancelled. */
  lemma LookAlikeHostCancels(url: string, hosts: seq<string>)
    requires url == "https://example.com.evil.org" && hosts == ["example.com"]
    ensures OnReceivedSslError(Some(SslError(2, url)), true, hosts) == Cancel
  {
    HostNotEndingAuthority(url[8..], hosts);
    HttpsOnly(url, hosts);
  }

  lemma HostNotEndingAuthority(r: string, hosts: seq<string>)
    requires r == "example.com.evil.org" && hosts == ["example.com"]
    ensures !AfterScheme(r, hosts)
  {
    LabelLengthAt(r, 7);
    assert !IsPath(r[11..]);
    SingleHost(r, hosts[0]);
    NoHostAt(r[8..], hosts);
  }

  /** A trailing line break is not part of any path, so the URL is cancelled. */
  lemma TrailingLineBreakCancels(url: string, hosts: seq<string>)
    requires url == "https://example.com\n" && hosts == ["example.com"]
    ensures OnReceivedSslError(Some(SslError(2, url)), true, hosts) == Cancel
  {
    LineBreakAfterHost(url[8..], hosts);
    HttpsOnly(url, hosts);
  }

  lemma LineBreakAfterHost(r: string, hosts: seq<string>)
    requires r == "example.com\n" && hosts == ["example.com"]
    ensures !AfterScheme(r, hosts)
  {
    LabelLengthAt(r, 7);
    assert !IsPath(r[11..]);
    SingleHost(r, hosts[0]);
    NoHostAt(r[8..], hosts);
  }
}
