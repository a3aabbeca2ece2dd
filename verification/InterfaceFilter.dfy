/** Which network interfaces are used: wildcard patterns over printed addresses. */
module InterfaceFilter {
  import opened Options
  import opened Texts

  // ---- the matcher ----

  /** Matches the whole address: a `*` takes one or more characters other
      than a dot, tried from the shortest on. */
  predicate MatchesIpFilter(pattern: string, address: string)
    decreases |pattern|
  {
    match SplitOnce(pattern, '*')
    case None => pattern == address
    case Some(split) =>
      split.before <= address
      && var remainder := address[|split.before|..];
         exists len :: 1 <= len <= Find(remainder, '.') && MatchesIpFilter(split.after, remainder[len..])
  }

  // ---- what a pattern means ----

  function Stars(pattern: string): nat {
    if pattern == [] then 0 else (if pattern[0] == '*' then 1 else 0) + Stars(pattern[1..])
  }

  /** The pattern with its stars replaced, in order. */
  function Filled(pattern: string, fills: seq<string>): string
    requires |fills| == Stars(pattern)
  {
    if pattern == [] then []
    else if pattern[0] == '*' then fills[0] + Filled(pattern[1..], fills[1..])
    else [pattern[0]] + Filled(pattern[1..], fills)
  }

  predicate IsFill(fill: string) {
    fill != [] && '.' !in fill
  }

  predicate IsFilling(pattern: string, fills: seq<string>, address: string) {
    && |fills| == Stars(pattern)
    && (forall i :: 0 <= i < |fills| ==> IsFill(fills[i]))
    && Filled(pattern, fills) == address
  }

  ghost predicate Denotes(pattern: string, address: string) {
    exists fills :: IsFilling(pattern, fills, address)
  }

  lemma {:induction false} FilledAtSplit(before: string, after: string, fills: seq<string>)
    requires '*' !in before
    ensures Stars(before + "*" + after) == 1 + Stars(after)
    ensures |fills| == 1 + Stars(after) ==>
              Filled(before + "*" + after, fills) == before + fills[0] + Filled(after, fills[1..])
  {
    var pattern := before + "*" + after;
    if before == [] {
      assert pattern[1..] == after;
    } else {
      assert pattern[1..] == before[1..] + "*" + after;
      FilledAtSplit(before[1..], after, fills);
      if |fills| == 1 + Stars(after) {
        assert [before[0]] + (before[1..] + fills[0] + Filled(after, fills[1..]))
               == before + fills[0] + Filled(after, fills[1..]);
      }
    }
  }

  lemma {:induction false} FilledWithoutStars(pattern: string)
    requires '*' !in pattern
    ensures Stars(pattern) == 0 && Filled(pattern, []) == pattern
  {
    if pattern != [] {
      FilledWithoutStars(pattern[1..]);
    }
  }

  lemma {:induction false} MatchIsFilling(pattern: string, address: string)
    requires MatchesIpFilter(pattern, address)
    ensures Denotes(pattern, address)
    decreases |pattern|
  {
    match SplitOnce(pattern, '*')
    case None =>
      FilledWithoutStars(pattern);
      assert IsFilling(pattern, [], address);
    case Some(split) =>
      var remainder := address[|split.before|..];
      var len :| 1 <= len <= Find(remainder, '.') && MatchesIpFilter(split.after, remainder[len..]);
      MatchIsFilling(split.after, remainder[len..]);
      ExtendDenotation(split.before, split.after, address, len);
  }

  lemma {:induction false} ExtendDenotation(before: string, after: string, address: string, len: nat)
    requires '*' !in before && before <= address && 1 <= len <= Find(address[|before|..], '.')
    requires Denotes(after, address[|before|..][len..])
    ensures Denotes(before + "*" + after, address)
  {
    var remainder := address[|before|..];
    var fill, rest := remainder[..len], remainder[len..];
    assert address == before + fill + rest;
    assert IsFill(fill) by {
      assert remainder[..Find(remainder, '.')][..len] == fill;
    }
    var fills :| IsFilling(after, fills, rest);
    ExtendFilling(before, after, fill, fills, rest);
  }

  lemma {:induction false} ExtendFilling(before: string, after: string, fill: string, fills: seq<string>, rest: string)
    requires '*' !in before && IsFill(fill) && IsFilling(after, fills, rest)
    ensures IsFilling(before + "*" + after, [fill] + fills, before + fill + rest)
  {
    FilledAtSplit(before, after, [fill] + fills);
    assert ([fill] + fills)[1..] == fills;
  }

  lemma {:induction false} FillingIsMatch(pattern: string, fills: seq<string>, address: string)
    requires IsFilling(pattern, fills, address)
    ensures MatchesIpFilter(pattern, address)
    decreases |pattern|
  {
    match SplitOnce(pattern, '*')
    case None =>
      FilledWithoutStars(pattern);
      assert fills == [];
    case Some(split) =>
      FilledAtSplit(split.before, split.after, fills);
      var rest := Filled(split.after, fills[1..]);
      assert IsFilling(split.after, fills[1..], rest);
      FillingIsMatch(split.after, fills[1..], rest);
      FillingStarts(split.before, fills[0], rest, address);
      assert address[|split.before|..][|fills[0]|..] == rest;
  }

  lemma {:induction false} FillingStarts(before: string, fill: string, rest: string, address: string)
    requires IsFill(fill) && address == before + fill + rest
    ensures before <= address && 1 <= |fill| <= Find(address[|before|..], '.')
    ensures address[|before|..][|fill|..] == rest
  {
    var remainder := address[|before|..];
    assert remainder == fill + rest;
  }

  /** The matcher accepts exactly the addresses a pattern denotes. */
  lemma {:induction false} MatchesExactly(pattern: string, address: string)
    ensures MatchesIpFilter(pattern, address) <==> Denotes(pattern, address)
  {
    if MatchesIpFilter(pattern, address) {
      MatchIsFilling(pattern, address);
    }
    if Denotes(pattern, address) {
      var fills :| IsFilling(pattern, fills, address);
      FillingIsMatch(pattern, fills, address);
    }
  }

  // ---- the filter ----

  datatype InterfaceFilter = InterfaceFilter(whitelist: Option<seq<string>>, blacklist: Option<seq<string>>) {
    predicate IsIgnored(addresses: seq<string>) {
      if whitelist.Some? && !AnyAddressMatches(addresses, whitelist.value) then true
      else if blacklist.Some? && AnyAddressMatches(addresses, blacklist.value) then true
      else false
    }
  }

  predicate AnyAddressMatches(addresses: seq<string>, patterns: seq<string>) {
    exists i :: 0 <= i < |addresses| && exists j :: 0 <= j < |patterns| && MatchesIpFilter(patterns[j], addresses[i])
  }

  ghost predicate Covered(addresses: seq<string>, patterns: seq<string>) {
    exists address, pattern :: address in addresses && pattern in patterns && Denotes(pattern, address)
  }

  lemma {:induction false} AnyMatchIsCover(addresses: seq<string>, patterns: seq<string>)
    ensures AnyAddressMatches(addresses, patterns) <==> Covered(addresses, patterns)
  {
    if AnyAddressMatches(addresses, patterns) {
      var i :| 0 <= i < |addresses| && exists j :: 0 <= j < |patterns| && MatchesIpFilter(patterns[j], addresses[i]);
      var j :| 0 <= j < |patterns| && MatchesIpFilter(patterns[j], addresses[i]);
      MatchesExactly(patterns[j], addresses[i]);
    }
    if Covered(addresses, patterns) {
      var address, pattern :| address in addresses && pattern in patterns && Denotes(pattern, address);
      var i :| 0 <= i < |addresses| && addresses[i] == address;
      var j :| 0 <= j < |patterns| && patterns[j] == pattern;
      MatchesExactly(patterns[j], addresses[i]);
    }
  }

  /** An interface is left out exactly when the whitelist covers none of its
      addresses, or the blacklist one of them. */
  lemma {:induction false} IgnoredExactly(filter: InterfaceFilter, addresses: seq<string>)
    ensures filter.IsIgnored(addresses) <==>
              || (filter.whitelist.Some? && !Covered(addresses, filter.whitelist.value))
              || (filter.blacklist.Some? && Covered(addresses, filter.blacklist.value))
  {
    if filter.whitelist.Some? {
      AnyMatchIsCover(addresses, filter.whitelist.value);
    }
    if filter.blacklist.Some? {
      AnyMatchIsCover(addresses, filter.blacklist.value);
    }
  }
}
