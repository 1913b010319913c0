/**
 * Client-IP validation and extraction (function/function_app.py, lines
 * 50-76): `sanitize_ip` and `get_real_client_ip`.
 */
module ClientAddress {
  import opened Wrappers
  import opened Text
  import opened Headers

  predicate IsDigit(c: char)
  {
    '0' <= c <= '9'
  }

  /** The character class `[a-fA-F0-9:]`. */
  predicate IsHexOrColon(c: char)
  {
    IsDigit(c) || 'a' <= c <= 'f' || 'A' <= c <= 'F' || c == ':'
  }

  /**
   * `s` is exactly `n` groups of one to three digits separated by single
   * dots: the pattern `(?:[0-9]{1,3}\.){n-1}[0-9]{1,3}` covering all of `s`.
   * Digits and dots are disjoint, so every group ends at the next dot.
   */
  predicate DigitGroups(s: string, n: nat)
    decreases n
  {
    var g := Before(s, '.');
    && n >= 1
    && 1 <= |g| <= 3
    && (forall i :: 0 <= i < |g| ==> IsDigit(g[i]))
    && if n == 1 then |g| == |s| else |g| < |s| && DigitGroups(s[|g| + 1..], n - 1)
  }

  /** `(?:[0-9]{1,3}\.){3}[0-9]{1,3}` over all of `s` (no range check on the groups). */
  predicate IsDottedQuad(s: string)
  {
    DigitGroups(s, 4)
  }

  /** `[a-fA-F0-9:]+` over all of `s`. */
  predicate IsHexRun(s: string)
  {
    |s| >= 1 && forall i :: 0 <= i < |s| ==> IsHexOrColon(s[i])
  }

  predicate MatchesToEnd(s: string)
  {
    IsDottedQuad(s) || IsHexRun(s)
  }

  /**
   * `re.match(r"^(?:[0-9]{1,3}\.){3}[0-9]{1,3}$|^[a-fA-F0-9:]+$", s)`
   * succeeds. Without the MULTILINE flag `$` matches at the end of the
   * string and also just before a newline that ends it.
   */
  predicate IpPatternMatches(s: string)
  {
    || MatchesToEnd(s)
    || (|s| >= 1 && s[|s| - 1] == '\n' && MatchesToEnd(s[..|s| - 1]))
  }

  /** Characters the dotted-quad alternative admits. */
  predicate IsDigitOrDot(c: char)
  {
    IsDigit(c) || c == '.'
  }

  lemma {:induction false} DigitGroupsChars(s: string, n: nat)
    requires DigitGroups(s, n)
    ensures s != [] && forall i :: 0 <= i < |s| ==> IsDigitOrDot(s[i])
    decreases n
  {
    var g := Before(s, '.');
    if n > 1 {
      DigitGroupsChars(s[|g| + 1..], n - 1);
      forall i | 0 <= i < |s| ensures IsDigitOrDot(s[i]) {
        if i > |g| { assert s[i] == s[|g| + 1..][i - |g| - 1]; }
      }
    }
  }

  /** A value the pattern accepts is non-empty and holds no comma. */
  lemma PatternExcludesComma(s: string)
    requires IpPatternMatches(s)
    ensures s != [] && ',' !in s
  {
    if IsDottedQuad(s) {
      DigitGroupsChars(s, 4);
    } else if !IsHexRun(s) {
      var t := s[..|s| - 1];
      assert forall i :: 0 <= i < |s| - 1 ==> s[i] == t[i];
      if IsDottedQuad(t) {
        DigitGroupsChars(t, 4);
      }
    }
  }

  /**
   * `sanitize_ip(ip)`: everything from the first `:` on is cut off, then
   * what is left is returned when it matches the address pattern.
   */
  function SanitizeIp(ip: string): (r: Option<string>)
    ensures r.Some? <==> IpPatternMatches(Split(ip, ':')[0])
    ensures r.Some? ==> r.value == Before(ip, ':')
    ensures r.Some? ==> r.value != "" && ':' !in r.value && ',' !in r.value
  {
    var ip := if ':' in ip then Split(ip, ':')[0] else ip;
    if IpPatternMatches(ip) then PatternExcludesComma(ip); Some(ip) else None
  }

  /**
   * Python truthiness of an optional string: `None` and `""` are false.
   */
  predicate Truthy(v: Option<string>)
  {
    v.Some? && v.value != ""
  }

  /** Python's `a or b` on optional strings. */
  function Or(a: Option<string>, b: Option<string>): (r: Option<string>)
    ensures Truthy(r) <==> Truthy(a) || Truthy(b)
    ensures Truthy(a) ==> r == a
    ensures r == a || r == b
  {
    if Truthy(a) then a else b
  }

  /**
   * `get_real_client_ip(req)`: the first truthy one of `X-Forwarded-For`,
   * `X-Client-IP` and `X-Real-IP` (looked up in any case) gives the
   * candidate, of which only the first comma-separated field, stripped, is
   * validated. Only when all three are absent or empty is `REMOTE_ADDR`
   * (default `""`) validated instead.
   */
  function GetRealClientIp(headers: seq<Header>): (ip: Option<string>)
    ensures ip.Some? ==> IpPatternMatches(ip.value) && ip.value != "" && ':' !in ip.value
  {
    var clientIp := Or(Or(GetIgnoringCase(headers, "X-Forwarded-For"),
                          GetIgnoringCase(headers, "X-Client-IP")),
                       GetIgnoringCase(headers, "X-Real-IP"));
    if Truthy(clientIp) then
      SanitizeIp(StripSpace(Split(clientIp.value, ',')[0]))
    else
      SanitizeIp(GetIgnoringCase(headers, "REMOTE_ADDR").GetOr(""))
  }

  /** The candidate a single header value yields: its first comma-separated field, stripped. */
  function FirstField(v: string): (f: string)
    ensures ',' !in f
    ensures f == [] || (!IsSpace(f[0]) && !IsSpace(f[|f| - 1]))
    ensures |f| <= |v|
  {
    StripSpace(Before(v, ','))
  }

  /**
   * Precedence, stated as a decision list: the first non-empty header
   * decides, whether or not its value is valid; `REMOTE_ADDR` is consulted
   * only when none of the three is non-empty.
   */
  lemma ClientIpPrecedence(headers: seq<Header>)
    ensures var xff := GetIgnoringCase(headers, "X-Forwarded-For");
      var xci := GetIgnoringCase(headers, "X-Client-IP");
      var xri := GetIgnoringCase(headers, "X-Real-IP");
      GetRealClientIp(headers) ==
        if Truthy(xff) then SanitizeIp(FirstField(xff.value))
        else if Truthy(xci) then SanitizeIp(FirstField(xci.value))
        else if Truthy(xri) then SanitizeIp(FirstField(xri.value))
        else SanitizeIp(GetIgnoringCase(headers, "REMOTE_ADDR").GetOr(""))
  {
  }

  /**
   * An invalid non-empty `X-Forwarded-For` yields no address, whatever
   * `X-Client-IP`, `X-Real-IP` or `REMOTE_ADDR` hold.
   */
  lemma NoFallthroughAfterInvalid(headers: seq<Header>)
    requires Truthy(GetIgnoringCase(headers, "X-Forwarded-For"))
    requires !IpPatternMatches(Before(FirstField(GetIgnoringCase(headers, "X-Forwarded-For").value), ':'))
    ensures GetRealClientIp(headers) == None
  {
  }

  /**
   * On input without a newline the accepted values are exactly the
   * dotted quads and the non-empty runs of hex digits (the colon has
   * already been cut away).
   */
  lemma SanitizeIpAccepts(ip: string)
    requires '\n' !in ip
    ensures var p := Before(ip, ':');
      SanitizeIp(ip).Some? <==>
        IsDottedQuad(p) || (|p| >= 1 && forall i :: 0 <= i < |p| ==> IsHexOrColon(p[i]) && p[i] != ':')
  {
    var p := Before(ip, ':');
    assert forall i :: 0 <= i < |p| ==> p[i] == ip[i];
  }

  predicate IsDigitGroup(f: string)
  {
    1 <= |f| <= 3 && forall i :: 0 <= i < |f| ==> IsDigit(f[i])
  }

  /**
   * The dotted-quad alternative, restated on `s.split('.')`: exactly `n`
   * fields, each of one to three digits.
   */
  predicate AllDigitGroups(fields: seq<string>)
  {
    forall i :: 0 <= i < |fields| ==> IsDigitGroup(fields[i])
  }

  lemma {:induction false} DigitGroupsAsFields(s: string, n: nat)
    requires n >= 1
    ensures DigitGroups(s, n) <==> |Split(s, '.')| == n && AllDigitGroups(Split(s, '.'))
    decreases n
  {
    var g := Before(s, '.');
    var fields := Split(s, '.');
    if |g| == |s| {
      assert fields == [s];
      assert g == s;
    } else {
      var rest := s[|g| + 1..];
      var tail := Split(rest, '.');
      assert fields == [g] + tail;
      AllDigitGroupsCons(g, tail);
      if n > 1 {
        DigitGroupsAsFields(rest, n - 1);
      }
    }
  }

  lemma AllDigitGroupsCons(g: string, tail: seq<string>)
    ensures AllDigitGroups([g] + tail) <==> IsDigitGroup(g) && AllDigitGroups(tail)
  {
    var fields := [g] + tail;
    if IsDigitGroup(g) && AllDigitGroups(tail) {
      forall i | 0 <= i < |fields| ensures IsDigitGroup(fields[i]) {
        if i > 0 { assert fields[i] == tail[i - 1]; }
      }
    }
    if AllDigitGroups(fields) {
      assert fields[0] == g;
      forall i | 0 <= i < |tail| ensures IsDigitGroup(tail[i]) {
        assert fields[i + 1] == tail[i];
      }
    }
  }

  lemma DottedQuadAsFields(s: string)
    ensures IsDottedQuad(s) <==> |Split(s, '.')| == 4 && AllDigitGroups(Split(s, '.'))
  {
    DigitGroupsAsFields(s, 4);
  }

  lemma DigitGroupOne(g: string)
    requires IsDigitGroup(g)
    ensures DigitGroups(g, 1)
  {
    BeforeSeparator(g, '.', []);
  }

  lemma DigitGroupsCons(g: string, rest: string, n: nat)
    requires IsDigitGroup(g) && DigitGroups(rest, n)
    ensures DigitGroups(g + ['.'] + rest, n + 1)
  {
    BeforeSeparator(g, '.', rest);
    assert (g + ['.'] + rest)[|g| + 1..] == rest;
  }

  lemma DottedQuadOf(a: string, b: string, c: string, d: string)
    requires IsDigitGroup(a) && IsDigitGroup(b) && IsDigitGroup(c) && IsDigitGroup(d)
    ensures IsDottedQuad(a + ['.'] + (b + ['.'] + (c + ['.'] + d)))
  {
    var cd := c + ['.'] + d;
    var bcd := b + ['.'] + cd;
    DigitGroupOne(d);
    DigitGroupsCons(c, d, 1);
    DigitGroupsCons(b, cd, 2);
    DigitGroupsCons(a, bcd, 3);
  }

  lemma SanitizeWithPort(p: string, rest: string)
    requires ':' !in p
    ensures SanitizeIp(p + [':'] + rest) == if IpPatternMatches(p) then Some(p) else None
  {
    BeforeSeparator(p, ':', rest);
  }

  lemma DottedQuadHasNoColon(p: string)
    requires IsDottedQuad(p)
    ensures ':' !in p
  {
    DigitGroupsChars(p, 4);
    forall i | 0 <= i < |p| ensures p[i] != ':' { assert IsDigitOrDot(p[i]); }
  }

  lemma DottedQuadIsKept(p: string)
    requires IsDottedQuad(p)
    ensures SanitizeIp(p) == Some(p)
  {
    DottedQuadHasNoColon(p);
  }

  /** A port after a dotted quad is cut off. */
  lemma DottedQuadWithPort(p: string, port: string)
    requires IsDottedQuad(p)
    ensures SanitizeIp(p + [':'] + port) == Some(p)
  {
    DottedQuadHasNoColon(p);
    SanitizeWithPort(p, port);
  }

  /**
   * An IPv6 address loses everything from its first colon: what survives is
   * its first group, a run of hex digits (or nothing at all).
   */
  lemma Ipv6KeepsFirstGroup(group: string, rest: string)
    requires |group| >= 1 && forall i :: 0 <= i < |group| ==> IsHexOrColon(group[i]) && group[i] != ':'
    ensures SanitizeIp(group + [':'] + rest) == Some(group)
  {
    SanitizeWithPort(group, rest);
  }

  /** An address that starts with a colon, such as `::1`, is rejected. */
  lemma LeadingColonIsRejected(rest: string)
    ensures SanitizeIp([':'] + rest) == None
  {
    SanitizeWithPort([], rest);
    assert [] + [':'] + rest == [':'] + rest;
  }

  lemma TenZeroZeroFive()
    ensures IsDottedQuad("10.0.0.5")
  {
    TenZeroZeroFiveParts();
    TenZeroZeroFiveJoined();
  }

  lemma TenZeroZeroFiveParts()
    ensures IsDottedQuad("10" + ['.'] + ("0" + ['.'] + ("0" + ['.'] + "5")))
  {
    DottedQuadOf("10", "0", "0", "5");
  }

  lemma TenZeroZeroFiveJoined()
    ensures "10" + ['.'] + ("0" + ['.'] + ("0" + ['.'] + "5")) == "10.0.0.5"
  {
  }

  /** A port is cut off, and so is most of an IPv6 address. */
  lemma PortIsCutOff()
    ensures SanitizeIp("10.0.0.5:9999") == Some("10.0.0.5")
  {
    TenZeroZeroFive();
    DottedQuadWithPort("10.0.0.5", "9999");
    PortIsCutOffJoined();
  }

  lemma PortIsCutOffJoined()
    ensures "10.0.0.5" + [':'] + "9999" == "10.0.0.5:9999"
  {
  }

  lemma Ipv6IsTruncated()
    ensures SanitizeIp("2001:db8::1") == Some("2001")
  {
    Ipv6KeepsFirstGroup("2001", "db8::1");
    Ipv6IsTruncatedJoined();
  }

  lemma Ipv6IsTruncatedJoined()
    ensures "2001" + [':'] + "db8::1" == "2001:db8::1"
  {
  }

  lemma LoopbackIpv6IsRejected()
    ensures SanitizeIp("::1") == None
  {
    LeadingColonIsRejected(":1");
    assert [':'] + ":1" == "::1";
  }

  /** Neither alternative of the pattern starts with a character outside `[a-fA-F0-9:]`. */
  lemma FirstCharOutsidePattern(p: string)
    requires |p| > 0 && !IsHexOrColon(p[0])
    ensures !MatchesToEnd(p)
  {
    var g := Before(p, '.');
    if |g| >= 1 {
      assert g[0] == p[0];
    }
  }

  /** An address whose first character no alternative admits is rejected. */
  lemma FirstCharIsRejected(s: string)
    requires |s| > 0 && !IsHexOrColon(s[0])
    ensures SanitizeIp(s) == None
  {
    var p := Before(s, ':');
    assert |p| > 0 && p[0] == s[0];
    FirstCharOutsidePattern(p);
    if |p| >= 2 {
      FirstCharOutsidePattern(p[..|p| - 1]);
    }
  }

  lemma WordIsRejected()
    ensures SanitizeIp("not-an-ip") == None
  {
    FirstCharIsRejected("not-an-ip");
  }

  /**
   * The groups are not range-checked: any four groups of one to three
   * digits pass, `999.999.999.999` included.
   */
  lemma AnyDigitGroupsAreKept(a: string, b: string, c: string, d: string)
    requires IsDigitGroup(a) && IsDigitGroup(b) && IsDigitGroup(c) && IsDigitGroup(d)
    ensures var q := a + ['.'] + (b + ['.'] + (c + ['.'] + d)); SanitizeIp(q) == Some(q)
  {
    DottedQuadOf(a, b, c, d);
    DottedQuadIsKept(a + ['.'] + (b + ['.'] + (c + ['.'] + d)));
  }

  lemma NinesAreKept()
    ensures SanitizeIp("999.999.999.999") == Some("999.999.999.999")
  {
    AnyDigitGroupsAreKept("999", "999", "999", "999");
    NinesJoined();
  }

  lemma NinesJoined()
    ensures "999" + ['.'] + ("999" + ['.'] + ("999" + ['.'] + "999")) == "999.999.999.999"
  {
  }

  /**
   * `$` also matches before a final newline, so a dotted quad followed by a
   * newline is accepted and returned with the newline.
   */
  lemma TrailingNewlineIsKept(p: string)
    requires IsDottedQuad(p)
    ensures SanitizeIp(p + "\n") == Some(p + "\n")
  {
    DottedQuadHasNoColon(p);
    var s := p + "\n";
    assert s[..|s| - 1] == p;
    assert ':' !in s;
  }

  /** A value without commas and without surrounding white space is its own first field. */
  lemma FirstFieldOfClean(v: string)
    requires ',' !in v && (v == [] || (!IsSpace(v[0]) && !IsSpace(v[|v| - 1])))
    ensures FirstField(v) == v
  {
    BeforeSeparator(v, ',', []);
    assert v + [','] + [] == v + [','];
    StripSpaceUnchanged(v);
  }

  lemma DottedQuadIsClean(a: string)
    requires IsDottedQuad(a)
    ensures ',' !in a && a != [] && !IsSpace(a[0]) && !IsSpace(a[|a| - 1])
  {
    DigitGroupsChars(a, 4);
    assert IsDigitOrDot(a[0]) && IsDigitOrDot(a[|a| - 1]);
    forall i | 0 <= i < |a| ensures a[i] != ',' { assert IsDigitOrDot(a[i]); }
  }

  /**
   * Of a list of forwarding hops only the first is taken: one hop that is a
   * dotted quad wins, whatever follows the comma.
   */
  lemma ForwardedListTakesFirst(headers: seq<Header>, first: string, rest: string)
    requires GetIgnoringCase(headers, "X-Forwarded-For") == Some(first + [','] + rest)
    requires IsDottedQuad(first)
    ensures GetRealClientIp(headers) == Some(first)
  {
    ClientIpPrecedence(headers);
    DottedQuadIsClean(first);
    BeforeSeparator(first, ',', rest);
    StripSpaceUnchanged(first);
    DottedQuadIsKept(first);
  }

  /**
   * With neither `X-Forwarded-For` nor `X-Client-IP` set, an `X-Real-IP`
   * holding a dotted quad and a port gives the quad alone.
   */
  lemma RealIpWithPort(headers: seq<Header>, quad: string, port: string)
    requires !Truthy(GetIgnoringCase(headers, "X-Forwarded-For"))
    requires !Truthy(GetIgnoringCase(headers, "X-Client-IP"))
    requires GetIgnoringCase(headers, "X-Real-IP") == Some(quad + [':'] + port)
    requires IsDottedQuad(quad) && ',' !in port && (port == [] || !IsSpace(port[|port| - 1]))
    ensures GetRealClientIp(headers) == Some(quad)
  {
    ClientIpPrecedence(headers);
    AddressWithPortIsClean(quad, port);
    DottedQuadWithPort(quad, port);
  }

  lemma AddressWithPortIsClean(quad: string, port: string)
    requires IsDottedQuad(quad) && ',' !in port && (port == [] || !IsSpace(port[|port| - 1]))
    ensures FirstField(quad + [':'] + port) == quad + [':'] + port
  {
    DottedQuadIsClean(quad);
    var v := quad + [':'] + port;
    assert v[0] == quad[0];
    assert v[|v| - 1] == if port == [] then ':' else port[|port| - 1];
    assert ',' !in v;
    FirstFieldOfClean(v);
  }
}
