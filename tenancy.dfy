/**
  Multi-tenancy by host name (app/lib/tenancy.ts): the organization's
  subdomain read from the host, the main domain, organization URLs, and the
  subdomain syntax — a lower-case DNS label in the sense of section 2.3.1 of
  RFC 1035, with the leading digit that section 2.1 of RFC 1123 allows, and
  at least three characters — with the slug suggested from an organization
  name. The browser's `window.location` is a parameter: None when there is
  no window (server-side rendering).
*/
module Tenancy {
  import opened Wrappers
  import Text
  import Seqs

  /** The parts of `window.location` the functions read. */
  datatype Location = Location(protocol: string, hostname: string, port: string)

  const Dot := "."
  const Localhost := "localhost"

  /** The main domain when there is no window. */
  const DefaultMainDomain := "boardyet.com"

  /** The development server's port. */
  const DevPort := ":5173"

  /** Text without a dot: a single host label. */
  predicate NoDot(s: string) {
    '.' !in s
  }

  lemma SplitPartsHaveNoDot(s: string)
    ensures forall k :: 0 <= k < |Text.Split(s, Dot)| ==> NoDot(Text.Split(s, Dot)[k])
  {
    Text.SplitPartsAvoidSeparator(s, Dot);
    forall k | 0 <= k < |Text.Split(s, Dot)| ensures NoDot(Text.Split(s, Dot)[k]) {
      Text.ContainsChar(Text.Split(s, Dot)[k], '.');
    }
  }

  /** The first dot-label of a host with at least two labels: the text before its first dot. */
  lemma FirstLabel(h: string)
    requires |Text.Split(h, Dot)| >= 2
    ensures var first := Text.Split(h, Dot)[0];
      |first| < |h| && h[..|first|] == first && h[|first|] == '.' && NoDot(first)
  {
    Text.SplitFirstSeparator(h, Dot);
    SplitPartsHaveNoDot(h);
  }

  /**
    getTenantFromHostname. A host containing "localhost" anywhere yields its
    first label when it has at least two and that label is not "localhost";
    any other host yields its first label when it has at least three and
    that label is not "www".
  */
  function TenantFromHostname(window: Option<Location>): (r: Option<string>)
    ensures window.None? ==> r.None?
    ensures r.Some? ==> var h := window.value.hostname;
      |r.value| < |h| && h[..|r.value|] == r.value && h[|r.value|] == '.' && NoDot(r.value)
    ensures r != Some(Localhost)
    ensures r == Some("www") ==> Text.Contains(window.value.hostname, Localhost)
  {
    if window.None? then None
    else
      var hostname := window.value.hostname;
      var parts := Text.Split(hostname, Dot);
      if Text.Contains(hostname, Localhost) then
        if |parts| >= 2 && parts[0] != Localhost then (FirstLabel(hostname); Some(parts[0])) else None
      else if |parts| >= 3 && parts[0] != "www" then (FirstLabel(hostname); Some(parts[0]))
      else None
  }

  /** A host of one label has no tenant. */
  lemma SingleLabelHasNoTenant(p: string, h: string, port: string)
    requires NoDot(h)
    ensures TenantFromHostname(Some(Location(p, h, port))).None?
  {
    Text.ContainsChar(h, '.');
    Text.SplitWithoutMatch(h, Dot);
  }

  /** `<sub>.localhost` has the tenant `<sub>`, unless that label is "localhost" itself. */
  lemma LocalTenant(p: string, sub: string, port: string)
    requires NoDot(sub) && sub != Localhost
    ensures TenantFromHostname(Some(Location(p, sub + ".localhost", port))) == Some(sub)
  {
    LocalhostIn(sub + ".");
    TwoLabels(sub, Localhost);
    assert sub + "." + Localhost == sub + ".localhost";
  }

  /** Off localhost, `a.b.c` has the tenant `a`, unless it is "www". */
  lemma ProductionTenant(p: string, a: string, b: string, c: string, port: string)
    requires NoDot(a) && NoDot(b) && NoDot(c) && !Text.Contains(a + "." + b + "." + c, Localhost)
    ensures TenantFromHostname(Some(Location(p, a + "." + b + "." + c, port))) == if a == "www" then None else Some(a)
  {
    ThreeLabels(a, b, c);
  }

  /** Off localhost, a host of two labels has no tenant. */
  lemma TwoLabelsNoTenant(p: string, a: string, b: string, port: string)
    requires NoDot(a) && NoDot(b) && !Text.Contains(a + "." + b, Localhost)
    ensures TenantFromHostname(Some(Location(p, a + "." + b, port))).None?
  {
    TwoLabels(a, b);
  }

  /** "localhost" is found in any text that ends with it. */
  lemma LocalhostIn(prefix: string)
    ensures Text.Contains(prefix + Localhost, Localhost)
  {
    assert Text.StartsWith(Localhost, Localhost);
    Text.ContainsExtend(Localhost, Localhost, prefix, "");
    assert prefix + Localhost + "" == prefix + Localhost;
  }

  lemma TwoLabels(a: string, b: string)
    requires NoDot(a) && NoDot(b)
    ensures Text.Split(a + "." + b, Dot) == [a, b]
  {
    Text.SplitAtChar(a, '.', b);
    Text.ContainsChar(b, '.');
    Text.SplitWithoutMatch(b, Dot);
  }

  lemma ThreeLabels(a: string, b: string, c: string)
    requires NoDot(a) && NoDot(b) && NoDot(c)
    ensures Text.Split(a + "." + b + "." + c, Dot) == [a, b, c]
  {
    assert a + "." + b + "." + c == a + ['.'] + (b + "." + c);
    Text.SplitAtChar(a, '.', b + "." + c);
    TwoLabels(b, c);
  }

  /** A text of letters other than "l", "o", "c", "a", "h", "s" and "t" cannot contain "localhost". */
  lemma NoLocalhostInLabels(s: string)
    requires 'l' !in s
    ensures !Text.Contains(s, Localhost)
  {
    if Text.Contains(s, Localhost) {
      Text.ContainsStartOf(s, Localhost, "l");
      Text.ContainsChar(s, 'l');
    }
  }

  /** isMainDomain: no window, no tenant, an empty (falsy) tenant, or the tenant "www". */
  function IsMainDomain(window: Option<Location>): (r: bool)
    ensures window.None? ==> r
    ensures r <==> TenantFromHostname(window) in {None, Some(""), Some("www")}
  {
    if window.None? then true
    else
      var tenant := TenantFromHostname(window);
      tenant.None? || tenant.value == "" || tenant.value == "www"
  }

  /** Off localhost, the "www" label never survives tenant extraction: a main-domain host is one without a tenant. */
  lemma MainDomainOffLocalhost(window: Option<Location>)
    requires window.Some? && !Text.Contains(window.value.hostname, Localhost)
    ensures IsMainDomain(window) <==> TenantFromHostname(window) in {None, Some("")}
  {
  }

  /** On `<sub>.localhost` the main domain is shown exactly for an empty label or "www": "www" is a tenant only on localhost. */
  lemma LocalMainDomain(p: string, sub: string, port: string)
    requires NoDot(sub) && sub != Localhost
    ensures IsMainDomain(Some(Location(p, sub + ".localhost", port))) <==> sub == "" || sub == "www"
  {
    LocalTenant(p, sub, port);
  }

  /**
    getMainDomain: "localhost" on a localhost host; otherwise the last two
    labels — the suffix of the host with exactly one dot that starts the
    host or follows a dot — or the whole host when it has no dot.
  */
  function MainDomain(window: Option<Location>): (r: string)
    ensures window.None? ==> r == DefaultMainDomain
    ensures window.Some? && Text.Contains(window.value.hostname, Localhost) ==> r == Localhost
    ensures window.Some? && !Text.Contains(window.value.hostname, Localhost) && NoDot(window.value.hostname) ==>
      r == window.value.hostname
    ensures window.Some? && !Text.Contains(window.value.hostname, Localhost) && !NoDot(window.value.hostname) ==>
      var h := window.value.hostname;
      && |r| <= |h| && h[|h| - |r|..] == r
      && (|r| == |h| || h[|h| - |r| - 1] == '.')
      && IsTwoLabels(r)
  {
    if window.None? then DefaultMainDomain
    else
      var hostname := window.value.hostname;
      if Text.Contains(hostname, Localhost) then Localhost
      else
        var parts := Text.Split(hostname, Dot);
        if |parts| >= 2 then
          LastTwoLabels(hostname);
          TwoLabelsWitness(parts[|parts| - 2], parts[|parts| - 1]);
          Text.Join(parts[|parts| - 2..], Dot)
        else
          assert NoDot(hostname) by {
            if !NoDot(hostname) {
              Text.ContainsChar(hostname, '.');
              Text.SplitWithMatch(hostname, Dot);
            }
          }
          hostname
  }

  /** A host name of exactly two labels. */
  ghost predicate IsTwoLabels(r: string) {
    exists a, b :: r == a + "." + b && NoDot(a) && NoDot(b)
  }

  lemma TwoLabelsWitness(a: string, b: string)
    requires NoDot(a) && NoDot(b)
    ensures IsTwoLabels(a + "." + b)
  {
  }

  /** `parts.slice(-2).join('.')` is a suffix of the host, made of its last two labels. */
  lemma LastTwoLabels(h: string)
    requires |Text.Split(h, Dot)| >= 2
    ensures var parts := Text.Split(h, Dot);
      var r := Text.Join(parts[|parts| - 2..], Dot);
      && r == parts[|parts| - 2] + "." + parts[|parts| - 1]
      && |r| <= |h| && h[|h| - |r|..] == r
      && (|r| == |h| || h[|h| - |r| - 1] == '.')
      && NoDot(parts[|parts| - 2]) && NoDot(parts[|parts| - 1])
  {
    var parts := Text.Split(h, Dot);
    var n := |parts|;
    var r := Text.Join(parts[n - 2..], Dot);
    assert parts[n - 2..] == [parts[n - 2], parts[n - 1]];
    assert parts[n - 2..][1..] == [parts[n - 1]];
    SplitPartsHaveNoDot(h);
    Text.JoinSplit(h, Dot);
    Text.JoinAllButLast(parts, Dot);
    var init := parts[..n - 1];
    Text.JoinCons(parts[n - 2], [parts[n - 1]], Dot);
    assert [parts[n - 2]] + [parts[n - 1]] == parts[n - 2..];
    assert r == parts[n - 2] + Dot + parts[n - 1];
    if n == 2 {
      assert h == parts[0] + Dot + parts[1];
    } else {
      Text.JoinAllButLast(init, Dot);
      assert init[..n - 2] == parts[..n - 2];
      var front := Text.Join(parts[..n - 2], Dot);
      assert init[n - 2] == parts[n - 2];
      assert h == (front + Dot + parts[n - 2]) + Dot + parts[n - 1];
      assert h == front + Dot + r;
      assert h[|h| - |r|..] == r;
    }
  }

  /** `:5173` on localhost, `:port` for a port other than "", "80" and "443", nothing otherwise. */
  function PortSuffix(mainDomain: string, port: string): (r: string)
    ensures Text.Contains(mainDomain, Localhost) ==> r == DevPort
    ensures !Text.Contains(mainDomain, Localhost) ==>
      (r == "" <==> port in {"", "80", "443"}) && (r != "" ==> r == ":" + port)
  {
    if Text.Contains(mainDomain, Localhost) then DevPort
    else if port != "" && port != "80" && port != "443" then ":" + port
    else ""
  }

  /** The host of an organization's URL: its subdomain under the main domain. */
  function OrganizationHost(subdomain: string, mainDomain: string): string {
    subdomain + "." + mainDomain
  }

  /** buildOrganizationUrl: "" without a window; otherwise protocol, `//`, the organization host, the port suffix and the path. */
  function BuildOrganizationUrl(window: Option<Location>, subdomain: string, path: string := ""): (r: string)
    ensures window.None? ==> r == ""
    ensures window.Some? ==>
      var main := MainDomain(window);
      r == window.value.protocol + "//" + OrganizationHost(subdomain, main) + PortSuffix(main, window.value.port) + path
  {
    if window.None? then ""
    else
      var mainDomain := MainDomain(window);
      var port := PortSuffix(mainDomain, window.value.port);
      window.value.protocol + "//" + OrganizationHost(subdomain, mainDomain) + port + path
  }

  /** On a localhost host every organization URL goes to port 5173. */
  lemma LocalUrlsUseDevPort(window: Option<Location>, subdomain: string, path: string)
    requires window.Some? && Text.Contains(window.value.hostname, Localhost)
    ensures BuildOrganizationUrl(window, subdomain, path)
      == window.value.protocol + "//" + OrganizationHost(subdomain, Localhost) + DevPort + path
  {
    var main := MainDomain(window);
    assert main == Localhost;
    LocalhostIn("");
    assert "" + Localhost == Localhost;
    assert PortSuffix(main, window.value.port) == DevPort;
  }

  /** `[a-z0-9]`. */
  predicate LowerAlnum(c: char) {
    'a' <= c <= 'z' || '0' <= c <= '9'
  }

  /** `[a-z0-9-]`. */
  predicate LabelChar(c: char) {
    LowerAlnum(c) || c == '-'
  }

  /** `^[a-z0-9]([a-z0-9-]{1,61}[a-z0-9])?$`: one character, or 3 to 63 with the inner ones allowing '-'. */
  predicate MatchesSubdomainPattern(s: string) {
    && |s| >= 1 && LowerAlnum(s[0])
    && (|s| == 1 || (3 <= |s| <= 63 && LowerAlnum(s[|s| - 1]) && forall k :: 1 <= k < |s| - 1 ==> LabelChar(s[k])))
  }

  /** isValidSubdomainFormat: 3 to 63 characters of `[a-z0-9-]`, neither first nor last '-'. */
  function IsValidSubdomainFormat(subdomain: string): (r: bool)
    ensures r <==> && 3 <= |subdomain| <= 63
                   && (forall k :: 0 <= k < |subdomain| ==> LabelChar(subdomain[k]))
                   && subdomain[0] != '-' && subdomain[|subdomain| - 1] != '-'
  {
    MatchesSubdomainPattern(subdomain) && 3 <= |subdomain| && |subdomain| <= 63
  }

  /** A valid subdomain is one host label. */
  lemma ValidSubdomainIsOneLabel(subdomain: string)
    requires IsValidSubdomainFormat(subdomain)
    ensures NoDot(subdomain)
  {
  }

  /**
    The host of an organization's URL leads back to the organization: on a
    localhost host, or on a host with a dot, the tenant read from the URL
    built for a valid subdomain is that subdomain — except for "www" and
    "localhost".
  */
  lemma {:induction false} OrganizationHostRoundTrip(window: Option<Location>, subdomain: string, protocol: string, port: string)
    requires window.Some? && (Text.Contains(window.value.hostname, Localhost) || !NoDot(window.value.hostname))
    requires IsValidSubdomainFormat(subdomain) && subdomain != "www" && subdomain != Localhost
    ensures TenantFromHostname(Some(Location(protocol, OrganizationHost(subdomain, MainDomain(window)), port))) == Some(subdomain)
  {
    ValidSubdomainIsOneLabel(subdomain);
    var main := MainDomain(window);
    if Text.Contains(window.value.hostname, Localhost) {
      assert main == Localhost;
      assert OrganizationHost(subdomain, main) == subdomain + ".localhost";
      LocalTenant(protocol, subdomain, port);
    } else {
      var a, b :| main == a + "." + b && NoDot(a) && NoDot(b);
      HostUnderTwoLabels(subdomain, a, b);
      ThreeLabelTenant(protocol, subdomain, a, b, port);
    }
  }

  lemma HostUnderTwoLabels(s: string, a: string, b: string)
    ensures OrganizationHost(s, a + "." + b) == s + "." + a + "." + b
  {
    Seqs.ConcatAssoc(s + ".", a + ".", b);
    Seqs.ConcatAssoc(s + ".", a, ".");
  }

  /** Any host of three labels has its first label as tenant, unless that label is "www" or "localhost". */
  lemma ThreeLabelTenant(p: string, a: string, b: string, c: string, port: string)
    requires NoDot(a) && NoDot(b) && NoDot(c) && a != "www" && a != Localhost
    ensures TenantFromHostname(Some(Location(p, a + "." + b + "." + c, port))) == Some(a)
  {
    ThreeLabels(a, b, c);
  }

  /** A host whose first label is "localhost" has no tenant, whatever follows. */
  lemma LocalhostFirstLabelNoTenant(p: string, rest: string, port: string)
    ensures TenantFromHostname(Some(Location(p, Localhost + "." + rest, port))).None?
  {
    var host := Localhost + "." + rest;
    assert Text.StartsWith(host, Localhost);
    assert NoDot(Localhost);
    Text.SplitAtChar(Localhost, '.', rest);
  }

  lemma LocalhostIsValidSubdomain()
    ensures IsValidSubdomainFormat(Localhost)
  {
    assert forall k :: 0 <= k < |Localhost| ==> LowerAlnum(Localhost[k]);
  }

  /** "localhost" passes the subdomain check, but its organization host reads as no organization. */
  lemma LocalhostSubdomainUnreachable(window: Option<Location>, protocol: string, port: string)
    ensures IsValidSubdomainFormat(Localhost)
    ensures TenantFromHostname(Some(Location(protocol, OrganizationHost(Localhost, MainDomain(window)), port))).None?
  {
    LocalhostIsValidSubdomain();
    LocalhostFirstLabelNoTenant(protocol, MainDomain(window), port);
  }

  /** "www" passes the subdomain check, but off localhost its organization host reads as no organization. */
  lemma WwwSubdomainUnreachable(protocol: string, a: string, b: string, port: string)
    requires NoDot(a) && NoDot(b) && !Text.Contains(OrganizationHost("www", a + "." + b), Localhost)
    ensures IsValidSubdomainFormat("www")
    ensures TenantFromHostname(Some(Location(protocol, OrganizationHost("www", a + "." + b), port))).None?
  {
    assert OrganizationHost("www", a + "." + b) == "www" + "." + a + "." + b;
    ProductionTenant(protocol, "www", a, b, port);
  }

  /** `toLowerCase` then `[^a-z0-9]` to '-', character by character. */
  function Hyphenate(s: string): (r: string)
    ensures |r| == |s| && forall k :: 0 <= k < |r| ==> LabelChar(r[k])
  {
    seq(|s|, k requires 0 <= k < |s| => if LowerAlnum(Text.ToLowerChar(s[k])) then Text.ToLowerChar(s[k]) else '-')
  }

  /** No two '-' in a row. */
  predicate NoDoubleHyphen(s: string) {
    forall k :: 0 <= k < |s| - 1 ==> !(s[k] == '-' && s[k + 1] == '-')
  }

  /** `replace(/-+/g, '-')`: every run of '-' becomes one. */
  function CollapseHyphens(s: string): (r: string)
    ensures |r| <= |s| && (|s| > 0 ==> |r| > 0 && r[0] == s[0])
    ensures forall k :: 0 <= k < |r| ==> r[k] in s
    ensures NoDoubleHyphen(r)
    decreases |s|
  {
    if |s| <= 1 then s
    else if s[0] == '-' && s[1] == '-' then
      var rest := CollapseHyphens(s[1..]);
      assert forall k :: 0 <= k < |rest| ==> rest[k] in s by {
        forall k | 0 <= k < |rest| ensures rest[k] in s {
          var j :| 0 <= j < |s[1..]| && s[1..][j] == rest[k];
          assert s[j + 1] == rest[k];
        }
      }
      rest
    else
      var rest := CollapseHyphens(s[1..]);
      var r := [s[0]] + rest;
      assert forall k :: 1 <= k < |r| ==> r[k] in s by {
        forall k | 1 <= k < |r| ensures r[k] in s {
          var j :| 0 <= j < |s[1..]| && s[1..][j] == rest[k - 1];
          assert s[j + 1] == r[k];
        }
      }
      r
  }

  /** Collapsing changes nothing in text without double hyphens: collapsing is idempotent. */
  lemma {:induction false} CollapseFixesClean(s: string)
    requires NoDoubleHyphen(s)
    ensures CollapseHyphens(s) == s
    decreases |s|
  {
    if |s| > 1 {
      assert NoDoubleHyphen(s[1..]) by {
        forall k | 0 <= k < |s[1..]| - 1 ensures !(s[1..][k] == '-' && s[1..][k + 1] == '-') {
          assert s[1..][k] == s[k + 1] && s[1..][k + 1] == s[k + 2];
        }
      }
      CollapseFixesClean(s[1..]);
      assert [s[0]] + s[1..] == s;
    }
  }

  lemma CollapseIdempotent(s: string)
    ensures CollapseHyphens(CollapseHyphens(s)) == CollapseHyphens(s)
  {
    CollapseFixesClean(CollapseHyphens(s));
  }

  /** `replace(/^-|-$/g, '')`: one leading and one trailing '-' go. */
  function TrimHyphens(s: string): (r: string)
    ensures |r| <= |s| && forall k :: 0 <= k < |r| ==> r[k] in s
    ensures NoDoubleHyphen(s) ==> NoDoubleHyphen(r) && (r != "" ==> r[0] != '-' && r[|r| - 1] != '-')
    ensures s != "" && s[0] != '-' && s[|s| - 1] != '-' ==> r == s
  {
    var i := if |s| > 0 && s[0] == '-' then 1 else 0;
    var a := s[i..];
    var r := if |a| > 0 && a[|a| - 1] == '-' then a[..|a| - 1] else a;
    assert forall k :: 0 <= k < |r| ==> r[k] == s[i + k];
    r
  }

  /** generateSubdomainFromName, before the cut to 30 characters. */
  function Slug(name: string): string {
    TrimHyphens(CollapseHyphens(Hyphenate(name)))
  }

  /** The uncut slug: only `[a-z0-9-]`, no "--", and neither first nor last '-'. */
  lemma SlugShape(name: string)
    ensures var t := Slug(name);
      && (forall k :: 0 <= k < |t| ==> LabelChar(t[k]))
      && NoDoubleHyphen(t) && (t != "" ==> t[0] != '-' && t[|t| - 1] != '-')
  {
    var h := Hyphenate(name);
    var c := CollapseHyphens(h);
    var t := TrimHyphens(c);
    forall k | 0 <= k < |t| ensures LabelChar(t[k]) {
      assert t[k] in c;
      var j :| 0 <= j < |c| && c[j] == t[k];
      assert c[j] in h;
    }
  }

  /**
    generateSubdomainFromName: only `[a-z0-9-]`, no "--", no leading '-', at
    most 30 characters, and a prefix of the uncut slug.
  */
  function GenerateSubdomainFromName(name: string): (r: string)
    ensures forall k :: 0 <= k < |r| ==> LabelChar(r[k])
    ensures NoDoubleHyphen(r)
    ensures r != "" ==> r[0] != '-'
    ensures |r| <= 30
    ensures |r| <= |Slug(name)| && r == Slug(name)[..|r|] && (|Slug(name)| <= 30 ==> r == Slug(name))
  {
    var t := Slug(name);
    SlugShape(name);
    var r := Text.Take(t, 30);
    assert forall k :: 0 <= k < |r| ==> r[k] == t[k];
    r
  }

  lemma AcmeCorpExample()
    ensures GenerateSubdomainFromName("Acme Corp") == "acme-corp"
  {
    var h := Hyphenate("Acme Corp");
    assert h == "acme-corp";
    assert NoDoubleHyphen(h);
    CollapseFixesClean(h);
  }

  /** A slug that the cut leaves whole and that has at least three characters is a valid subdomain. */
  lemma GeneratedValidWhenUncut(name: string)
    requires 3 <= |Slug(name)| <= 30
    ensures IsValidSubdomainFormat(GenerateSubdomainFromName(name))
  {
    SlugShape(name);
    assert GenerateSubdomainFromName(name) == Slug(name);
  }

  /** Lower-case letters and digits come out of Hyphenate unchanged. */
  lemma HyphenateKeepsLowerAlnum(s: string)
    requires forall k :: 0 <= k < |s| ==> LowerAlnum(s[k])
    ensures Hyphenate(s) == s
  {
  }

  /**
    The suggestion is not always a valid subdomain: with a 29-character
    first word, the cut to 30 characters ends it with the '-' before the
    second word.
  */
  lemma {:induction false} GeneratedMayEndWithHyphen(word: string, next: char)
    requires |word| == 29 && (forall k :: 0 <= k < |word| ==> LowerAlnum(word[k])) && LowerAlnum(next)
    ensures GenerateSubdomainFromName(word + " " + [next]) == word + "-"
    ensures !IsValidSubdomainFormat(GenerateSubdomainFromName(word + " " + [next]))
  {
    var name := word + " " + [next];
    var h := Hyphenate(name);
    var expected := word + "-" + [next];
    forall k | 0 <= k < |name| ensures h[k] == expected[k] {
      if k < 29 { assert name[k] == word[k] && expected[k] == word[k]; }
      else if k == 29 { assert name[k] == ' '; } else { assert name[k] == next; }
    }
    assert h == expected;
    forall k | 0 <= k < |h| - 1 ensures !(h[k] == '-' && h[k + 1] == '-') {
      if k < 29 { assert h[k] == word[k]; }
      else { assert h[k + 1] == next; }
    }
    CollapseFixesClean(h);
    assert h[0] == word[0] && h[|h| - 1] == next;
    assert Slug(name) == h;
    assert h[..30] == word + "-";
  }

  /** A name of fewer than three letters gives a suggestion that is too short. */
  lemma ShortNameTooShort(name: string)
    requires 1 <= |name| <= 2 && forall k :: 0 <= k < |name| ==> LowerAlnum(name[k])
    ensures GenerateSubdomainFromName(name) == name && !IsValidSubdomainFormat(name)
  {
    HyphenateKeepsLowerAlnum(name);
    CollapseFixesClean(name);
  }
}
