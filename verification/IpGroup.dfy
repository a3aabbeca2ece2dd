/** The group a connection belongs to: an IPv4 address, or a /64 of IPv6. */
module IpGroup {
  import opened Numerals

  type Segment = x: int | 0 <= x < 0x1_0000

  datatype IpAddr =
    | V4(a: Octet, b: Octet, c: Octet, d: Octet)
    | V6(segments: seq<Segment>)

  predicate IsAddress(ip: IpAddr) {
    ip.V6? ==> |ip.segments| == 8
  }

  function Parts(ip: IpAddr): seq<string>
    requires IsAddress(ip)
  {
    match ip
    case V4(a, b, c, d) => [Print(10, a), Print(10, b), Print(10, c), Print(10, d)]
    case V6(s) => [Print(16, s[0]), Print(16, s[1]), Print(16, s[2]), Print(16, s[3])]
  }

  /** Decimal octets joined by dots, or the first four segments in unpadded
      hex joined by colons. */
  function GetIpGroup(ip: IpAddr): string
    requires IsAddress(ip)
  {
    Join(Parts(ip), if ip.V4? then '.' else ':')
  }

  predicate SameNetwork(x: IpAddr, y: IpAddr)
    requires IsAddress(x) && IsAddress(y)
  {
    if x.V4? && y.V4? then x == y
    else x.V6? && y.V6? && x.segments[..4] == y.segments[..4]
  }

  lemma {:induction false} PrintHasNoSeparator(base: nat, n: nat)
    requires 2 <= base <= 16
    ensures '.' !in Print(base, n) && ':' !in Print(base, n)
  {
    assert forall i :: 0 <= i < |Print(base, n)| ==> IsDigit(Print(base, n)[i]);
  }

  lemma {:induction false} PartsHaveNoSeparator(ip: IpAddr)
    requires IsAddress(ip)
    ensures forall i :: 0 <= i < |Parts(ip)| ==> '.' !in Parts(ip)[i] && ':' !in Parts(ip)[i]
  {
    match ip
    case V4(a, b, c, d) =>
      PrintHasNoSeparator(10, a);
      PrintHasNoSeparator(10, b);
      PrintHasNoSeparator(10, c);
      PrintHasNoSeparator(10, d);
    case V6(s) =>
      PrintHasNoSeparator(16, s[0]);
      PrintHasNoSeparator(16, s[1]);
      PrintHasNoSeparator(16, s[2]);
      PrintHasNoSeparator(16, s[3]);
  }

  lemma {:induction false} PartsDetermine(x: IpAddr, y: IpAddr)
    requires IsAddress(x) && IsAddress(y) && x.V4? == y.V4? && Parts(x) == Parts(y)
    ensures SameNetwork(x, y)
  {
    match (x, y)
    case (V4(a, b, c, d), V4(e, f, g, h)) =>
      assert Parts(x)[0] == Parts(y)[0] && Parts(x)[1] == Parts(y)[1]
             && Parts(x)[2] == Parts(y)[2] && Parts(x)[3] == Parts(y)[3];
      PrintIsInjective(10, a, e);
      PrintIsInjective(10, b, f);
      PrintIsInjective(10, c, g);
      PrintIsInjective(10, d, h);
    case (V6(s), V6(t)) =>
      assert Parts(x)[0] == Parts(y)[0] && Parts(x)[1] == Parts(y)[1]
             && Parts(x)[2] == Parts(y)[2] && Parts(x)[3] == Parts(y)[3];
      PrintIsInjective(16, s[0], t[0]);
      PrintIsInjective(16, s[1], t[1]);
      PrintIsInjective(16, s[2], t[2]);
      PrintIsInjective(16, s[3], t[3]);
  }

  /** Two peers share a group exactly when they have the same IPv4 address or
      IPv6 addresses of the same /64. */
  lemma {:induction false} GroupIsNetwork(x: IpAddr, y: IpAddr)
    requires IsAddress(x) && IsAddress(y)
    ensures GetIpGroup(x) == GetIpGroup(y) <==> SameNetwork(x, y)
  {
    PartsHaveNoSeparator(x);
    PartsHaveNoSeparator(y);
    if x.V4? != y.V4? {
      JoinHas(Parts(x), if x.V4? then '.' else ':', if x.V4? then ':' else '.');
      JoinHas(Parts(y), if y.V4? then '.' else ':', if y.V4? then ':' else '.');
    } else if GetIpGroup(x) == GetIpGroup(y) {
      JoinIsInjective(Parts(x), Parts(y), if x.V4? then '.' else ':');
      PartsDetermine(x, y);
    } else if x.V6? && SameNetwork(x, y) {
      assert forall i :: 0 <= i < 4 ==> x.segments[i] == x.segments[..4][i] == y.segments[i];
    }
  }

  /** The group as text: decimal octets between dots, or hex segments between
      colons. */
  lemma {:induction false} GroupText(a: Octet, b: Octet, c: Octet, d: Octet, s: seq<Segment>)
    requires |s| == 8
    ensures GetIpGroup(V4(a, b, c, d))
            == Print(10, a) + "." + Print(10, b) + "." + Print(10, c) + "." + Print(10, d)
    ensures GetIpGroup(V6(s)) == Print(16, s[0]) + ":" + Print(16, s[1]) + ":" + Print(16, s[2]) + ":" + Print(16, s[3])
  {
    JoinsFour(Print(10, a), Print(10, b), Print(10, c), Print(10, d), '.');
    JoinsFour(Print(16, s[0]), Print(16, s[1]), Print(16, s[2]), Print(16, s[3]), ':');
  }

  lemma {:induction false} JoinsFour(a: string, b: string, c: string, d: string, separator: char)
    ensures Join([a, b, c, d], separator) == a + [separator] + b + [separator] + c + [separator] + d
  {
    assert [a, b, c, d][1..] == [b, c, d] && [b, c, d][1..] == [c, d] && [c, d][1..] == [d];
    assert Join([c, d], separator) == c + [separator] + Join([d], separator) == c + [separator] + d;
    assert Join([b, c, d], separator) == b + [separator] + (c + [separator] + d);
  }
}
