/** Scoped IPv6 hosts (`fe80::1%3`) as host names that a URL can carry. */
module ScopedHost {
  import opened Numerals
  import opened Options
  import opened Texts

  type Ipv6 = x: nat | x < 0x1_0000_0000_0000_0000_0000_0000_0000_0000
  type Scope = x: nat | x < 0x1_0000_0000

  const SUFFIX: string := ".scoped.linko.internal"

  /** How addresses are read and written. */
  datatype Ipv6Text = Ipv6Text(parse: string -> Option<Ipv6>, print_: Ipv6 -> string)

  predicate IsAddressChar(c: char) {
    IsDigit(c) || c == ':' || c == '.'
  }

  /** What section 4 of RFC 5952 promises of the written form, and that
      reading undoes writing. */
  ghost predicate Faithful(text: Ipv6Text) {
    forall address: Ipv6 ::
      && text.parse(text.print_(address)) == Some(address)
      && forall i :: 0 <= i < |text.print_(address)| ==> IsAddressChar(text.print_(address)[i])
  }

  /** Reads a 32-bit number: digits, after at most one plus sign. */
  function ParseU32(text: string): (scope: Option<Scope>)
    ensures scope.Some? ==> text != []
  {
    var digits := if |text| > 1 && text[0] == '+' then text[1..] else text;
    if IsNumeral(10, digits) && Value(10, digits) < 0x1_0000_0000 then Some(Value(10, digits)) else None
  }

  lemma {:induction false} ParsePrinted(scope: Scope)
    ensures ParseU32(Print(10, scope)) == Some(scope)
  {
    ValueOfPrint(10, scope);
    assert IsDigit(Print(10, scope)[0]);
  }

  function Replace(text: string, from: char, to: char): (result: string)
    ensures |result| == |text|
    ensures forall i :: 0 <= i < |text| ==> result[i] == if text[i] == from then to else text[i]
  {
    seq(|text|, i requires 0 <= i < |text| => if text[i] == from then to else text[i])
  }

  lemma {:induction false} ReplaceBack(text: string, from: char, to: char)
    requires to !in text
    ensures Replace(Replace(text, from, to), to, from) == text
  {
  }

  datatype SocketAddrV6 = SocketAddrV6(ip: Ipv6, port: nat, flowinfo: nat, scope: Scope)

  /** The address and scope a host of the form `<address>%<scope>` stands for. */
  function Parsed(text: Ipv6Text, host: string): Option<SocketAddrV6> {
    match SplitOnce(host, '%')
    case None => None
    case Some(split) =>
      match (text.parse(split.before), ParseU32(split.after))
      case (Some(address), Some(scope)) => Some(SocketAddrV6(address, 0, 0, scope))
      case _ => None
  }

  function EncodedName(text: Ipv6Text, address: Ipv6, scope: Scope): string {
    Replace(text.print_(address), ':', '-') + "s" + Print(10, scope) + SUFFIX
  }

  function Encode(text: Ipv6Text, host: string): Option<string> {
    match SplitOnce(host, '%')
    case None => None
    case Some(split) =>
      match text.parse(split.before)
      case None => None
      case Some(address) =>
        match ParseU32(split.after)
        case None => None
        case Some(scope) => if '.' in text.print_(address) then None else Some(EncodedName(text, address, scope))
  }

  function StripSuffix(name: string, suffix: string): (rest: Option<string>)
    ensures rest.Some? ==> name == rest.value + suffix
    ensures rest.None? ==> |name| < |suffix| || name[|name| - |suffix|..] != suffix
  {
    if |suffix| <= |name| && name[|name| - |suffix|..] == suffix then Some(name[..|name| - |suffix|]) else None
  }

  function Decode(text: Ipv6Text, name: string): Option<SocketAddrV6> {
    match StripSuffix(name, SUFFIX)
    case None => None
    case Some(encoded) =>
      match SplitOnce(encoded, 's')
      case None => None
      case Some(split) =>
        match (text.parse(Replace(split.before, '-', ':')), ParseU32(split.after))
        case (Some(address), Some(scope)) => Some(SocketAddrV6(address, 0, 0, scope))
        case _ => None
  }

  lemma {:induction false} StripAppended(rest: string, suffix: string)
    ensures StripSuffix(rest + suffix, suffix) == Some(rest)
  {
    assert (rest + suffix)[|rest + suffix| - |suffix|..] == suffix;
  }

  lemma {:induction false} DecodeEncodedName(text: Ipv6Text, address: Ipv6, scope: Scope)
    requires Faithful(text) && '.' !in text.print_(address)
    ensures Decode(text, EncodedName(text, address, scope)) == Some(SocketAddrV6(address, 0, 0, scope))
  {
    var printed := text.print_(address);
    assert forall i :: 0 <= i < |printed| ==> IsAddressChar(printed[i]);
    ReplaceBack(printed, ':', '-');
    var dashed := Replace(printed, ':', '-');
    StripAppended(dashed + "s" + Print(10, scope), SUFFIX);
    SplitOnceIs(dashed, 's', Print(10, scope));
    ParsePrinted(scope);
  }

  /** A host is encoded exactly when it is an address and a scope and the
      address is written without dots; decoding gives both back. */
  lemma {:induction false} DecodeReversesEncode(text: Ipv6Text, host: string)
    requires Faithful(text)
    ensures Encode(text, host).Some? <==> Parsed(text, host).Some? && '.' !in text.print_(Parsed(text, host).value.ip)
    ensures Encode(text, host).Some? ==> Decode(text, Encode(text, host).value) == Parsed(text, host)
    ensures Encode(text, host).Some? ==>
              var parsed := Parsed(text, host).value;
              Encode(text, host) == Some(
                Replace(text.print_(parsed.ip), ':', '-') + "s" + Print(10, parsed.scope) + ".scoped.linko.internal")
  {
    if Encode(text, host).Some? {
      var parsed := Parsed(text, host).value;
      DecodeEncodedName(text, parsed.ip, parsed.scope);
    }
  }

  /** So two encoded hosts share a name exactly when they mean the same
      address in the same scope. */
  lemma {:induction false} EncodeIsInjective(text: Ipv6Text, a: string, b: string)
    requires Faithful(text)
    ensures Encode(text, a).Some? && Encode(text, b).Some? ==>
              (Encode(text, a) == Encode(text, b) <==> Parsed(text, a) == Parsed(text, b))
  {
    DecodeReversesEncode(text, a);
    DecodeReversesEncode(text, b);
  }
}
