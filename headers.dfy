/**
 * HTTP header dictionaries and the two sanitisation policies of the
 * redirector (function/function_app.py, lines 38-47 and 79-99).
 *
 * A Python `dict` of header names to values is a sequence of pairs with
 * pairwise distinct names, in insertion order. Names are compared in ASCII
 * lower case by the policies; the dictionary itself is case-sensitive.
 */
module Headers {
  import opened Wrappers
  import opened Text

  type Header = (string, string)

  /** The entries have pairwise distinct names, as the keys of a `dict`. */
  predicate IsDict(d: seq<Header>)
  {
    forall i, j :: 0 <= i < j < |d| ==> d[i].0 != d[j].0
  }

  /** Position of the first entry named exactly `k`, or `|d|` when there is none. */
  function Find(d: seq<Header>, k: string): (i: nat)
    ensures i <= |d|
    ensures i < |d| ==> d[i].0 == k
    ensures forall j :: 0 <= j < i ==> d[j].0 != k
  {
    if d == [] then 0 else if d[0].0 == k then 0 else 1 + Find(d[1..], k)
  }

  lemma FindUnique(d: seq<Header>, k: string, i: nat)
    requires i <= |d|
    requires i < |d| ==> d[i].0 == k
    requires forall j :: 0 <= j < i ==> d[j].0 != k
    ensures Find(d, k) == i
  {
  }

  lemma FindSnoc(d: seq<Header>, e: Header, k: string)
    ensures Find(d + [e], k) ==
      if Find(d, k) < |d| then Find(d, k) else if e.0 == k then |d| else |d| + 1
  {
    var i := if Find(d, k) < |d| then Find(d, k) else if e.0 == k then |d| else |d| + 1;
    FindUnique(d + [e], k, i);
  }

  predicate Occurs(d: seq<Header>, k: string)
  {
    Find(d, k) < |d|
  }

  /** `d.get(k)`. */
  function Lookup(d: seq<Header>, k: string): (v: Option<string>)
    ensures v.Some? <==> Occurs(d, k)
    ensures v.Some? ==> (k, v.value) in d
  {
    var i := Find(d, k);
    if i < |d| then Some(d[i].1) else None
  }

  /**
   * `d[k] = v`: an entry already named `k` keeps its position and takes the
   * new value; otherwise the entry is added at the end.
   */
  function Set(d: seq<Header>, k: string, v: string): (r: seq<Header>)
    ensures Lookup(r, k) == Some(v)
    ensures forall k' :: k' != k ==> Lookup(r, k') == Lookup(d, k')
    ensures IsDict(d) ==> IsDict(r)
    ensures !Occurs(d, k) ==> r == d + [(k, v)]
    ensures Occurs(d, k) ==> |r| == |d| && forall j :: 0 <= j < |d| ==> r[j].0 == d[j].0
  {
    var i := Find(d, k);
    if i < |d| then
      var r := d[i := (k, v)];
      FindUnique(r, k, i);
      forall k' | k' != k ensures Find(r, k') == Find(d, k') {
        FindUnique(r, k', Find(d, k'));
      }
      r
    else
      forall k' { FindSnoc(d, (k, v), k'); }
      d + [(k, v)]
  }

  /** Position of the first entry whose name equals `name` in ASCII lower case. */
  function FindIgnoringCase(h: seq<Header>, name: string): (i: nat)
    ensures i <= |h|
    ensures i < |h| ==> Lower(h[i].0) == Lower(name)
    ensures forall j :: 0 <= j < i ==> Lower(h[j].0) != Lower(name)
  {
    if h == [] then 0
    else if Lower(h[0].0) == Lower(name) then 0
    else 1 + FindIgnoringCase(h[1..], name)
  }

  /**
   * Case-insensitive `get`: the value of the first entry whose name matches
   * `name` in any case. This is how the host's request object answers
   * `req.headers.get(name)`, and how `email.message.Message.get` answers for
   * the headers of an upstream error response.
   */
  function GetIgnoringCase(h: seq<Header>, name: string): (v: Option<string>)
    ensures v.Some? <==> exists i :: 0 <= i < |h| && Lower(h[i].0) == Lower(name)
    ensures v.Some? ==> var i := FindIgnoringCase(h, name); i < |h| && v.value == h[i].1
  {
    var i := FindIgnoringCase(h, name);
    if i < |h| then Some(h[i].1) else None
  }

  /** The value of the last pair named exactly `k`. */
  function LastValue(items: seq<Header>, k: string): Option<string>
  {
    if items == [] then None
    else if items[|items| - 1].0 == k then Some(items[|items| - 1].1)
    else LastValue(items[..|items| - 1], k)
  }

  /**
   * `dict(pairs)`, as applied to `response.getheaders()`: every name keeps the
   * value of its LAST pair, at the position of its first pair.
   */
  function DictFromItems(items: seq<Header>): (d: seq<Header>)
    ensures IsDict(d)
    ensures forall k :: Lookup(d, k) == LastValue(items, k)
  {
    if items == [] then []
    else
      var last := items[|items| - 1];
      Set(DictFromItems(items[..|items| - 1]), last.0, last.1)
  }

  /**
   * The fold behind `dict(msg)` for an `email.message.Message` holding
   * `items`, over its first `n` names: `msg.keys()` lists every name, with
   * repetitions, and `msg[name]` is the value of the FIRST header whose name
   * matches in any case.
   */
  function MessageDictUpTo(items: seq<Header>, n: nat): (d: seq<Header>)
    requires n <= |items|
    ensures IsDict(d)
  {
    if n == 0 then []
    else
      var name := items[n - 1].0;
      var value := GetIgnoringCase(items, name);
      assert value.Some?;
      Set(MessageDictUpTo(items, n - 1), name, value.value)
  }

  lemma {:induction false} MessageDictUpToLookup(items: seq<Header>, n: nat, k: string)
    requires n <= |items|
    ensures Lookup(MessageDictUpTo(items, n), k) ==
      if Occurs(items[..n], k) then GetIgnoringCase(items, k) else None
  {
    if n > 0 {
      if k == items[n - 1].0 {
        LookupNewestName(items, n);
      } else {
        MessageDictUpToLookup(items, n - 1, k);
        LookupOlderName(items, n, k);
      }
    }
  }

  /** The `n`-th name is answered with its first case-insensitive value. */
  lemma LookupNewestName(items: seq<Header>, n: nat)
    requires 0 < n <= |items|
    ensures var k := items[n - 1].0;
      Occurs(items[..n], k) && Lookup(MessageDictUpTo(items, n), k) == GetIgnoringCase(items, k)
  {
    var prev, name, value := MessageDictStep(items, n);
    OccursSnoc(items, n, name);
  }

  /** Any other name is answered after `n` steps as after `n - 1`. */
  lemma LookupOlderName(items: seq<Header>, n: nat, k: string)
    requires 0 < n <= |items| && k != items[n - 1].0
    requires Lookup(MessageDictUpTo(items, n - 1), k) ==
      if Occurs(items[..n - 1], k) then GetIgnoringCase(items, k) else None
    ensures Lookup(MessageDictUpTo(items, n), k) ==
      if Occurs(items[..n], k) then GetIgnoringCase(items, k) else None
  {
    var prev, name, value := MessageDictStep(items, n);
    OccursSnoc(items, n, k);
  }

  /** The first `n` names hold `k` when the first `n - 1` do or the `n`-th is `k`. */
  lemma OccursSnoc(items: seq<Header>, n: nat, k: string)
    requires 0 < n <= |items|
    ensures Occurs(items[..n], k) <==> Occurs(items[..n - 1], k) || items[n - 1].0 == k
  {
    assert items[..n] == items[..n - 1] + [items[n - 1]];
    FindSnoc(items[..n - 1], items[n - 1], k);
  }

  /** One step of the fold: the `n`-th name is set to its first case-insensitive value. */
  lemma MessageDictStep(items: seq<Header>, n: nat) returns (prev: seq<Header>, name: string, value: string)
    requires 0 < n <= |items|
    ensures prev == MessageDictUpTo(items, n - 1) && name == items[n - 1].0
    ensures GetIgnoringCase(items, name) == Some(value)
    ensures MessageDictUpTo(items, n) == Set(prev, name, value)
  {
    prev := MessageDictUpTo(items, n - 1);
    name := items[n - 1].0;
    value := GetIgnoringCase(items, name).value;
  }

  /** `msg[k]` when `k` is one of `msg.keys()`; nothing otherwise. */
  function MessageValue(items: seq<Header>, k: string): Option<string>
  {
    if Occurs(items, k) then GetIgnoringCase(items, k) else None
  }

  /** `dict(e.headers)` for the headers `items` of an upstream error response. */
  function MessageDict(items: seq<Header>): (d: seq<Header>)
    ensures IsDict(d)
    ensures forall k :: Lookup(d, k) == MessageValue(items, k)
  {
    assert items[..|items|] == items;
    MessageDictLookup(items);
    MessageDictUpTo(items, |items|)
  }

  lemma MessageDictLookup(items: seq<Header>)
    ensures forall k :: Lookup(MessageDictUpTo(items, |items|), k) == MessageValue(items, k)
  {
    assert items[..|items|] == items;
    forall k ensures Lookup(MessageDictUpTo(items, |items|), k) == MessageValue(items, k) {
      MessageDictUpToLookup(items, |items|, k);
    }
  }

  /** `HOP_BY_HOP_HEADERS`: the connection-level names, in lower case. */
  const HopByHopHeaders: set<string> := {
    "connection",
    "keep-alive",
    "proxy-authenticate",
    "proxy-authorization",
    "te",
    "trailer",
    "transfer-encoding",
    "upgrade"
  }

  /** `a` is `b` with some entries left out, the rest in their order. */
  predicate IsSubsequence(a: seq<Header>, b: seq<Header>)
    decreases |b|
  {
    if a == [] then true
    else if b == [] then false
    else
      || (a[|a| - 1] == b[|b| - 1] && IsSubsequence(a[..|a| - 1], b[..|b| - 1]))
      || IsSubsequence(a, b[..|b| - 1])
  }

  /** The entries of `h` whose lower-cased name is not in `drop`, in order. */
  function Filter(h: seq<Header>, drop: set<string>): (r: seq<Header>)
    ensures |r| <= |h|
    ensures forall i :: 0 <= i < |r| ==> Lower(r[i].0) !in drop
  {
    if h == [] then []
    else
      var init, last := h[..|h| - 1], h[|h| - 1];
      Filter(init, drop) + (if Lower(last.0) in drop then [] else [last])
  }

  lemma {:induction false} FilterMember(h: seq<Header>, drop: set<string>, e: Header)
    ensures e in Filter(h, drop) <==> e in h && Lower(e.0) !in drop
  {
    if h != [] {
      var init, last := h[..|h| - 1], h[|h| - 1];
      assert h == init + [last];
      FilterMember(init, drop, e);
    }
  }

  /** Exactly the entries whose lower-cased name is not in `drop` survive. */
  lemma FilterContents(h: seq<Header>, drop: set<string>)
    ensures forall e :: e in Filter(h, drop) <==> e in h && Lower(e.0) !in drop
  {
    forall e ensures e in Filter(h, drop) <==> e in h && Lower(e.0) !in drop {
      FilterMember(h, drop, e);
    }
  }

  lemma {:induction false} FilterSubsequence(h: seq<Header>, drop: set<string>)
    ensures IsSubsequence(Filter(h, drop), h)
  {
    if h != [] {
      var init, last := h[..|h| - 1], h[|h| - 1];
      FilterSubsequence(init, drop);
      var f := Filter(init, drop);
      assert h == init + [last] && h[..|h| - 1] == init;
      if Lower(last.0) !in drop {
        var r := f + [last];
        assert r[..|r| - 1] == f && r[|r| - 1] == last;
        assert Filter(h, drop) == r;
      } else {
        assert Filter(h, drop) == f;
      }
    }
  }

  lemma {:induction false} FilterDict(h: seq<Header>, drop: set<string>)
    ensures IsDict(h) ==> IsDict(Filter(h, drop))
  {
    if h != [] && IsDict(h) {
      var init, last := h[..|h| - 1], h[|h| - 1];
      assert IsDict(init);
      FilterDict(init, drop);
      var f := Filter(init, drop);
      if Lower(last.0) !in drop {
        forall j | 0 <= j < |f| ensures f[j].0 != last.0 {
          FilterMember(init, drop, f[j]);
        }
      }
    }
  }

  /** In a dict an entry is found by its name. */
  lemma DictLookup(d: seq<Header>, k: string, v: string)
    requires IsDict(d) && (k, v) in d
    ensures Lookup(d, k) == Some(v)
  {
    var i :| 0 <= i < |d| && d[i] == (k, v);
    FindUnique(d, k, i);
  }

  /** Filtering a dict answers every lookup as the dict did, except for dropped names. */
  lemma FilterLookup(d: seq<Header>, drop: set<string>, k: string)
    requires IsDict(d)
    ensures Lookup(Filter(d, drop), k) == if Lower(k) in drop then None else Lookup(d, k)
  {
    FilterDict(d, drop);
    var f := Filter(d, drop);
    FilterContents(d, drop);
    var r := Lookup(f, k);
    if r.Some? {
      DictLookup(d, k, r.value);
    }
  }

  lemma {:induction false} FilterIdempotent(h: seq<Header>, drop: set<string>)
    ensures Filter(Filter(h, drop), drop) == Filter(h, drop)
  {
    if h != [] {
      var init, last := h[..|h| - 1], h[|h| - 1];
      FilterIdempotent(init, drop);
      var f := Filter(init, drop);
      if Lower(last.0) !in drop {
        assert Filter(h, drop) == f + [last];
        assert (f + [last])[..|f|] == f;
        assert Filter(f + [last], drop) == Filter(f, drop) + [last];
      } else {
        assert Filter(h, drop) == f;
      }
    }
  }

  /** Names never forwarded upstream: hop-by-hop, `content-length`, and `host` when asked. */
  function RequestDropped(dropHost: bool): (drop: set<string>)
    ensures HopByHopHeaders <= drop && "content-length" in drop
    ensures "host" in drop <==> dropHost
  {
    HopByHopHeaders + {"content-length"} + (if dropHost then {"host"} else {})
  }

  /**
   * `sanitize_request_headers(headers, drop_host)`: builds a new dict entry by
   * entry, skipping hop-by-hop names, `host` when `dropHost` holds, and
   * `content-length`.
   */
  method SanitizeRequestHeaders(headers: seq<Header>, dropHost: bool) returns (sanitized: seq<Header>)
    requires IsDict(headers)
    ensures sanitized == Filter(headers, RequestDropped(dropHost))
    ensures IsDict(sanitized) && IsSubsequence(sanitized, headers)
    ensures forall e :: e in sanitized ==>
      && e in headers
      && Lower(e.0) !in HopByHopHeaders
      && Lower(e.0) != "content-length"
      && (dropHost ==> Lower(e.0) != "host")
    ensures forall e :: e in headers && Lower(e.0) !in RequestDropped(dropHost) ==> e in sanitized
  {
    ghost var drop := RequestDropped(dropHost);
    sanitized := [];
    var i := 0;
    while i < |headers|
      invariant 0 <= i <= |headers|
      invariant sanitized == Filter(headers[..i], drop)
    {
      var (k, v) := headers[i];
      var lk := Lower(k);
      assert headers[..i + 1] == headers[..i] + [headers[i]];
      if lk in HopByHopHeaders {
      } else if dropHost && lk == "host" {
      } else if lk == "content-length" {
      } else {
        forall j | 0 <= j < |sanitized| ensures sanitized[j].0 != k {
          FilterMember(headers[..i], drop, sanitized[j]);
        }
        sanitized := Set(sanitized, k, v);
      }
      i := i + 1;
    }
    assert headers[..i] == headers;
    FilterSubsequence(headers, drop);
    FilterDict(headers, drop);
    FilterContents(headers, drop);
  }

  /**
   * `sanitize_response_headers(headers)`: the entries whose lower-cased name
   * is not hop-by-hop, in order. `Host` and `Content-Length` pass.
   */
  function SanitizeResponseHeaders(headers: seq<Header>): (r: seq<Header>)
    ensures forall e :: e in r ==> e in headers && Lower(e.0) !in HopByHopHeaders
    ensures forall e :: e in headers && Lower(e.0) !in HopByHopHeaders ==> e in r
    ensures IsSubsequence(r, headers)
    ensures IsDict(headers) ==> IsDict(r)
  {
    FilterSubsequence(headers, HopByHopHeaders);
    FilterDict(headers, HopByHopHeaders);
    FilterContents(headers, HopByHopHeaders);
    Filter(headers, HopByHopHeaders)
  }

  /** A sanitised response dict answers every lookup as before, except hop-by-hop names. */
  lemma SanitizeResponseLookup(d: seq<Header>)
    requires IsDict(d)
    ensures forall k ::
      Lookup(SanitizeResponseHeaders(d), k) == if Lower(k) in HopByHopHeaders then None else Lookup(d, k)
  {
    forall k {
      FilterLookup(d, HopByHopHeaders, k);
    }
  }

  lemma SanitizeResponseHeadersIdempotent(headers: seq<Header>)
    ensures SanitizeResponseHeaders(SanitizeResponseHeaders(headers)) == SanitizeResponseHeaders(headers)
  {
    FilterIdempotent(headers, HopByHopHeaders);
  }

  /** The response side keeps `Host` and `Content-Length`, in whatever case. */
  lemma ResponseKeepsHostAndContentLength(headers: seq<Header>, e: Header)
    requires e in headers
    requires Lower(e.0) == "host" || Lower(e.0) == "content-length"
    ensures e in SanitizeResponseHeaders(headers)
  {
  }

  /** Dropping `host` is the only difference `dropHost` makes. */
  lemma RequestDropHostOnly(headers: seq<Header>, e: Header)
    requires Lower(e.0) != "host"
    ensures e in Filter(headers, RequestDropped(true)) <==> e in Filter(headers, RequestDropped(false))
  {
    FilterMember(headers, RequestDropped(true), e);
    FilterMember(headers, RequestDropped(false), e);
  }
}
