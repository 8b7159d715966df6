/** The DNSBL naming helpers of dnsbl.py (section 2.1 of RFC 5782): an IPv4
    address `a.b.c.d` is looked up as `d.c.b.a.<domain>`. The configured
    domain, a module global in the program, is a parameter here. */
module Naming {
  import opened Wrappers
  import opened Bytes
  import opened Text

  /** Four dot-separated digit runs: what `\d+\.\d+\.\d+\.\d+` matches. The
      runs are not range-checked, so `999.999.999.999` is one. */
  predicate DottedQuad(s: seq<byte>) {
    var parts := Split(s);
    |parts| == 4 && forall i | 0 <= i < 4 :: DigitRun(parts[i])
  }

  /** `reverse(ip_address)`: the dot-separated parts in the opposite order. */
  function Reverse(address: seq<byte>): (r: seq<byte>)
    ensures Split(r) == Reversed(Split(address))
  {
    SplitJoin(Reversed(Split(address)));
    Join(Reversed(Split(address)))
  }

  /** Reversing twice gives back any string, not only addresses. */
  lemma ReverseInvolution(s: seq<byte>)
    ensures Reverse(Reverse(s)) == s
  {
    assert Reversed(Reversed(Split(s))) == Split(s);
    assert Split(Reverse(Reverse(s))) == Split(s);
    assert Join(Split(Reverse(Reverse(s)))) == Join(Split(s));
  }

  /** `hostname(ip_address)`: the reversed address, a dot, the domain. Its
      parts are the address's parts in reverse, then the domain's. */
  function Hostname(address: seq<byte>, domain: seq<byte>): (r: seq<byte>)
    ensures Split(r) == Reversed(Split(address)) + Split(domain)
  {
    SplitDot(Reverse(address), domain);
    Reverse(address) + [DOT] + domain
  }

  /** `ipaddress(host)`: when the host is four digit runs followed by the
      labels of the domain, the runs in reverse order; otherwise `None`.
      The anchored regex of the program, read label by label. */
  function Ipaddress(host: seq<byte>, domain: seq<byte>): (r: Option<seq<byte>>)
    ensures r.Some? ==> DottedQuad(r.value)
  {
    var labels := Split(host);
    if |labels| == 4 + |Split(domain)| && labels[4..] == Split(domain)
       && forall i | 0 <= i < 4 :: DigitRun(labels[i])
    then
      SplitJoin(labels[..4]);
      Some(Reverse(Join(labels[..4])))
    else None
  }

  /** The regex `^(\d+\.\d+\.\d+\.\d+)\.<domain>$` read as text: the host
      ends with a dot and the domain, and what comes before is a dotted
      quad, the captured group. */
  predicate MatchesPattern(host: seq<byte>, domain: seq<byte>) {
    && |host| >= |domain| + 1
    && host[|host| - |domain| - 1..] == [DOT] + domain
    && DottedQuad(host[..|host| - |domain| - 1])
  }

  /** A host the regex matches has the captured group's parts followed by
      the domain's parts. */
  lemma PatternLabels(host: seq<byte>, domain: seq<byte>)
    requires MatchesPattern(host, domain)
    ensures var labels := Split(host);
      && |labels| == 4 + |Split(domain)| && labels[4..] == Split(domain)
      && labels[..4] == Split(host[..|host| - |domain| - 1])
  {
    var group := host[..|host| - |domain| - 1];
    assert host == group + [DOT] + domain;
    SplitDot(group, domain);
  }

  /** Four digit runs joined by dots make a dotted quad. */
  lemma JoinQuad(parts: seq<seq<byte>>)
    requires |parts| == 4 && forall i | 0 <= i < 4 :: DigitRun(parts[i])
    ensures DottedQuad(Join(parts))
  {
    assert DotFree(parts) by {
      forall i | 0 <= i < 4
        ensures DOT !in parts[i]
      {
        assert DigitRun(parts[i]);
      }
    }
    SplitJoin(parts);
  }

  /** The two sides of the dot that comes before the domain. */
  lemma DomainSuffix(host: seq<byte>, group: seq<byte>, domain: seq<byte>)
    requires host == group + [DOT] + domain
    ensures |host| >= |domain| + 1
    ensures host[..|host| - |domain| - 1] == group
    ensures host[|host| - |domain| - 1..] == [DOT] + domain
  {
  }

  /** A host whose first four parts are digit runs and whose remaining parts
      are the domain's is matched by the regex, the group being those four
      parts joined. */
  lemma LabelsMatchPattern(host: seq<byte>, domain: seq<byte>)
    requires var labels := Split(host);
      && |labels| == 4 + |Split(domain)| && labels[4..] == Split(domain)
      && forall i | 0 <= i < 4 :: DigitRun(labels[i])
    ensures MatchesPattern(host, domain)
    ensures host[..|host| - |domain| - 1] == Join(Split(host)[..4])
  {
    var labels := Split(host);
    var group := Join(labels[..4]);
    assert labels == labels[..4] + Split(domain);
    JoinConcat(labels[..4], Split(domain));
    DomainSuffix(host, group, domain);
    JoinQuad(labels[..4]);
  }

  /** `ipaddress` agrees with the regex read as text: it matches exactly
      when the regex does, and then returns the captured group reversed. */
  lemma IpaddressIsPattern(host: seq<byte>, domain: seq<byte>)
    ensures Ipaddress(host, domain)
         == if MatchesPattern(host, domain)
            then Some(Reverse(host[..|host| - |domain| - 1]))
            else None
  {
    var labels := Split(host);
    if MatchesPattern(host, domain) {
      PatternLabels(host, domain);
    }
    if |labels| == 4 + |Split(domain)| && labels[4..] == Split(domain)
       && forall i | 0 <= i < 4 :: DigitRun(labels[i]) {
      LabelsMatchPattern(host, domain);
    }
  }

  /** `ipaddress` undoes `hostname`: the name built for a dotted quad maps
      back to that address. */
  lemma HostnameRoundTrip(address: seq<byte>, domain: seq<byte>)
    requires DottedQuad(address)
    ensures Ipaddress(Hostname(address, domain), domain) == Some(address)
  {
    var host := Hostname(address, domain);
    var group := Reverse(address);
    assert host == group + [DOT] + domain;
    assert host[..|host| - |domain| - 1] == group;
    assert host[|host| - |domain| - 1..] == [DOT] + domain;
    assert DottedQuad(group);
    IpaddressIsPattern(host, domain);
    ReverseInvolution(address);
  }

  /** And `hostname` undoes `ipaddress`: an address found in a host is a
      dotted quad whose DNSBL name is that host. */
  lemma IpaddressRoundTrip(host: seq<byte>, domain: seq<byte>)
    requires Ipaddress(host, domain).Some?
    ensures DottedQuad(Ipaddress(host, domain).value)
    ensures Hostname(Ipaddress(host, domain).value, domain) == host
  {
    IpaddressIsPattern(host, domain);
    var group := host[..|host| - |domain| - 1];
    assert host == group + [DOT] + domain;
    ReverseInvolution(group);
  }

  /** A host with fewer labels than four plus the domain's has no address,
      the domain itself among them. */
  lemma NoAddressPrefix(host: seq<byte>, domain: seq<byte>)
    requires |Split(host)| < 4 + |Split(domain)|
    ensures Ipaddress(host, domain) == None
  {
  }

  /** The parts of `a.b.c.d` for dot-free `a`, `b`, `c`, `d`. */
  lemma SplitQuad(a: seq<byte>, b: seq<byte>, c: seq<byte>, d: seq<byte>)
    requires DOT !in a && DOT !in b && DOT !in c && DOT !in d
    ensures Split(a + [DOT] + (b + [DOT] + (c + [DOT] + d))) == [a, b, c, d]
  {
    var cd := c + [DOT] + d;
    var bcd := b + [DOT] + cd;
    SplitConcat(d, []);
    SplitConcat(c, d);
    SplitConcat(b, cd);
    SplitConcat(a, bcd);
  }

  /** `hostname` and `ipaddress` on an address spelled as four digit runs. */
  lemma QuadRoundTrip(a: seq<byte>, b: seq<byte>, c: seq<byte>, d: seq<byte>, domain: seq<byte>)
    requires DigitRun(a) && DigitRun(b) && DigitRun(c) && DigitRun(d)
    ensures var address := a + [DOT] + (b + [DOT] + (c + [DOT] + d));
      Ipaddress(Hostname(address, domain), domain) == Some(address)
  {
    assert DOT !in a && DOT !in b && DOT !in c && DOT !in d;
    SplitQuad(a, b, c, d);
    HostnameRoundTrip(a + [DOT] + (b + [DOT] + (c + [DOT] + d)), domain);
  }

  /** `reverse` on four parts, of which the doctest `reverse('1.2.3.4')` is
      an instance. */
  lemma ReverseQuad(a: seq<byte>, b: seq<byte>, c: seq<byte>, d: seq<byte>)
    requires DOT !in a && DOT !in b && DOT !in c && DOT !in d
    ensures Reverse(a + [DOT] + (b + [DOT] + (c + [DOT] + d)))
         == d + [DOT] + (c + [DOT] + (b + [DOT] + a))
  {
    SplitQuad(a, b, c, d);
    SplitQuad(d, c, b, a);
    var r := Reverse(a + [DOT] + (b + [DOT] + (c + [DOT] + d)));
    assert Split(r) == [d, c, b, a];
    assert r == Join(Split(r));
  }

  /** The doctest `reverse('1.2.3.4')`. */
  lemma ReverseExample()
    ensures Reverse(Ascii("1.2.3.4")) == Ascii("4.3.2.1")
  {
    var one, two, three, four := Ascii("1"), Ascii("2"), Ascii("3"), Ascii("4");
    assert Ascii("1.2.3.4") == one + [DOT] + (two + [DOT] + (three + [DOT] + four));
    assert Ascii("4.3.2.1") == four + [DOT] + (three + [DOT] + (two + [DOT] + one));
    ReverseQuad(one, two, three, four);
  }

  /** The doctest `hostname('1.2.3.4')`, for any domain, the program's
      default `dnsbl.gnixl.com` among them. */
  lemma HostnameExample(domain: seq<byte>)
    ensures Hostname(Ascii("1.2.3.4"), domain) == Ascii("4.3.2.1") + [DOT] + domain
  {
    ReverseExample();
  }

  /** The doctest `ipaddress('4.3.2.1.dnsbl.gnixl.com')`, for any domain. */
  lemma IpaddressExample(domain: seq<byte>)
    ensures Ipaddress(Ascii("4.3.2.1") + [DOT] + domain, domain) == Some(Ascii("1.2.3.4"))
  {
    var one, two, three, four := Ascii("1"), Ascii("2"), Ascii("3"), Ascii("4");
    assert Ascii("1.2.3.4") == one + [DOT] + (two + [DOT] + (three + [DOT] + four));
    QuadRoundTrip(one, two, three, four, domain);
    HostnameExample(domain);
  }

  /** The doctest `ipaddress('gnixl.com')` under `dnsbl.gnixl.com`: no
      address before the domain. */
  lemma NoAddressExample()
    ensures Ipaddress(Ascii("gnixl.com"), Ascii("dnsbl.gnixl.com")) == None
  {
    var host, domain := Ascii("gnixl.com"), Ascii("dnsbl.gnixl.com");
    var dnsbl, gnixl, com := Ascii("dnsbl"), Ascii("gnixl"), Ascii("com");
    var suffix := gnixl + [DOT] + com;
    assert host == suffix;
    assert domain == dnsbl + [DOT] + suffix;
    SplitPair(gnixl, com);
    SplitDot(dnsbl, suffix);
    NoAddressPrefix(host, domain);
  }

  /** The parts of `a.b` for dot-free `a` and `b`. */
  lemma SplitPair(a: seq<byte>, b: seq<byte>)
    requires DOT !in a && DOT !in b
    ensures Split(a + [DOT] + b) == [a, b]
  {
    SplitConcat(b, []);
    SplitConcat(a, b);
  }
}
