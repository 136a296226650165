/** Endpoint addresses: the `"host:port"` and `"http://host:port"` strings a
    server reports once bound, and a reader that takes such a string apart
    again. The reader is the independent partner of the formatting: every
    address the system writes can be read back to the host and port it was
    made from. */
module Address {
  import opened Common

  const HTTP_PREFIX: string := "http://"

  /** `"%s:%d" % (host, port)`. */
  function HostPort(host: string, port: nat): string
  {
    host + ":" + NatToString(port)
  }

  /** `f"http://{host}:{port}"`, the IPv4 form of a bound server address. */
  function HttpAddress(host: string, port: nat): string
  {
    HTTP_PREFIX + HostPort(host, port)
  }

  /** `f"http://[{host}]:{port}"`, the IPv6 form with the host bracketed. */
  function HttpAddress6(host: string, port: nat): string
  {
    HTTP_PREFIX + HostPort("[" + host + "]", port)
  }

  /** True when a host is written inside square brackets. */
  predicate Bracketed(h: string)
  {
    |h| >= 2 && h[0] == '[' && h[|h| - 1] == ']'
  }

  /** Position of the last colon of a string, if it has one. */
  function LastColon(s: string): (r: Option<nat>)
    ensures r.Some? ==> r.value < |s| && s[r.value] == ':'
    ensures r.Some? ==> forall j :: r.value < j < |s| ==> s[j] != ':'
    ensures r.None? ==> forall j :: 0 <= j < |s| ==> s[j] != ':'
  {
    if |s| == 0 then None
    else if s[|s| - 1] == ':' then Some(|s| - 1)
    else LastColon(s[..|s| - 1])
  }

  /** Splits `"host:port"` at its last colon; the port must be decimal. */
  function SplitHostPort(s: string): (r: Option<(string, nat)>)
    ensures r.Some? ==> |r.value.0| < |s| && s[|r.value.0|] == ':' && s[..|r.value.0|] == r.value.0
  {
    match LastColon(s)
    case None => None
    case Some(i) =>
      match ParseNat(s[i + 1..])
      case None => None
      case Some(p) => Some((s[..i], p))
  }

  /** Reads `"http://host:port"` or `"http://[host]:port"` back into its
      host (brackets removed) and port. */
  function ParseHttpAddress(a: string): Option<(string, nat)>
  {
    if |a| < |HTTP_PREFIX| || a[..|HTTP_PREFIX|] != HTTP_PREFIX then None
    else
      match SplitHostPort(a[|HTTP_PREFIX|..])
      case None => None
      case Some((h, p)) => Some((if Bracketed(h) then h[1..|h| - 1] else h, p))
  }

  lemma SplitHostPortRoundTrip(h: string, p: nat)
    ensures SplitHostPort(HostPort(h, p)) == Some((h, p))
  {
    var s := HostPort(h, p);
    var digits := NatToString(p);
    assert s == h + ":" + digits;
    assert s[|h|] == ':';
    var r := LastColon(s);
    assert forall j :: |h| < j < |s| ==> s[j] == digits[j - |h| - 1];
    assert r == Some(|h|);
    assert s[|h| + 1..] == digits;
    assert s[..|h|] == h;
    ParseNatToString(p);
  }

  /** The IPv4 address a server reports reads back to its host and port. */
  lemma HttpAddressRoundTrip(h: string, p: nat)
    requires !Bracketed(h)
    ensures ParseHttpAddress(HttpAddress(h, p)) == Some((h, p))
  {
    var a := HttpAddress(h, p);
    assert a[..|HTTP_PREFIX|] == HTTP_PREFIX;
    assert a[|HTTP_PREFIX|..] == HostPort(h, p);
    SplitHostPortRoundTrip(h, p);
  }

  /** The IPv6 address a server reports reads back to its host and port. */
  lemma HttpAddress6RoundTrip(h: string, p: nat)
    ensures ParseHttpAddress(HttpAddress6(h, p)) == Some((h, p))
  {
    var a := HttpAddress6(h, p);
    var bh := "[" + h + "]";
    assert a[..|HTTP_PREFIX|] == HTTP_PREFIX;
    assert a[|HTTP_PREFIX|..] == HostPort(bh, p);
    SplitHostPortRoundTrip(bh, p);
    assert Bracketed(bh);
    assert bh[1..|bh| - 1] == h;
  }

  /** Any host, bracketed or not, formats to an address that reads back
      with its port. */
  lemma HttpAddressParses(h: string, p: nat)
    ensures ParseHttpAddress(HttpAddress(h, p)).Some?
    ensures ParseHttpAddress(HttpAddress(h, p)).value.1 == p
  {
    var a := HttpAddress(h, p);
    assert a[..|HTTP_PREFIX|] == HTTP_PREFIX;
    assert a[|HTTP_PREFIX|..] == HostPort(h, p);
    SplitHostPortRoundTrip(h, p);
  }
}
