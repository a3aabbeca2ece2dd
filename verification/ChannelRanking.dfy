/** The order in which the channels of a device are tried, against the true
    recency of their confirmations. */
module ChannelRanking {
  import opened Options
  import opened Discovery

  /** The sort key, compared as a tuple; a missing position is the smallest. */
  datatype Key = Key(available: bool, ipv6: bool, confirmed: Option<nat>)

  predicate Later(a: Option<nat>, b: Option<nat>) {
    a.Some? && (b.None? || a.value > b.value)
  }

  predicate Above(a: Key, b: Key) {
    if a.available != b.available then a.available
    else if a.ipv6 != b.ipv6 then a.ipv6
    else Later(a.confirmed, b.confirmed)
  }

  /** The position of the last entry of a channel. */
  function LastConfirmed(logs: seq<DeviceLog>, channel: Channel): (p: Option<nat>)
    ensures p.Some? ==> p.value < |logs|
  {
    if logs == [] then None
    else
      var n := |logs| - 1;
      if logs[n].channel == channel then Some(n) else LastConfirmed(logs[..n], channel)
  }

  /** The host without the scope of a link-local address. */
  function WithoutScope(host: string): (address: string)
    ensures address <= host && '%' !in address
    ensures address != host ==> host[|address|] == '%'
  {
    if host == "" || host[0] == '%' then "" else [host[0]] + WithoutScope(host[1..])
  }

  /** `parsesAsIpv6` stands for the address parser of the standard library. */
  function KeyOf(parsesAsIpv6: string -> bool, known: StatefulDevice, channel: Channel): Key
    requires channel in known.channels
  {
    Key(known.channels[channel] == Available, parsesAsIpv6(WithoutScope(channel.host)),
        LastConfirmed(known.logs, channel))
  }

  predicate AllKnown(known: StatefulDevice, ranked: seq<Channel>) {
    forall c :: c in ranked ==> c in known.channels
  }

  predicate IsSorted(parsesAsIpv6: string -> bool, known: StatefulDevice, ranked: seq<Channel>)
    requires AllKnown(known, ranked)
  {
    forall i, j :: 0 <= i < j < |ranked| ==>
      !Above(KeyOf(parsesAsIpv6, known, ranked[j]), KeyOf(parsesAsIpv6, known, ranked[i]))
  }

  /** All channels once each, best first. */
  ghost predicate IsRanking(parsesAsIpv6: string -> bool, known: StatefulDevice, ranked: seq<Channel>) {
    && AllKnown(known, ranked)
    && IsSorted(parsesAsIpv6, known, ranked)
    && multiset(ranked) == multiset(known.channels.Keys)
  }

  /** `a` may be tried before `b`: what is available comes first, then what is
      IPv6, and otherwise every time `b` was logged, `a` was logged later. */
  predicate MayPrecede(parsesAsIpv6: string -> bool, known: StatefulDevice, a: Channel, b: Channel)
    requires a in known.channels && b in known.channels
  {
    var status, ipv6 := known.channels, (c: Channel) => parsesAsIpv6(WithoutScope(c.host));
    if status[a] != status[b] then status[a] == Available
    else if ipv6(a) != ipv6(b) then ipv6(a)
    else forall q :: 0 <= q < |known.logs| && known.logs[q].channel == b ==> LoggedAfter(known.logs, q, a)
  }

  predicate LoggedAfter(logs: seq<DeviceLog>, q: int, channel: Channel) {
    exists p :: q < p < |logs| && p >= 0 && logs[p].channel == channel
  }

  lemma {:induction false} KeysMeanPrecedence(parsesAsIpv6: string -> bool, known: StatefulDevice, a: Channel,
                                              b: Channel)
    requires a in known.channels && b in known.channels && a != b
    ensures !Above(KeyOf(parsesAsIpv6, known, b), KeyOf(parsesAsIpv6, known, a))
            <==> MayPrecede(parsesAsIpv6, known, a, b)
  {
    LastConfirmedIsEntry(known.logs, a);
    LastConfirmedIsEntry(known.logs, b);
    var p, q := LastConfirmed(known.logs, a), LastConfirmed(known.logs, b);
    if q.Some? {
      assert known.logs[q.value].channel == b;
      if p.Some? && q.value < p.value {
        forall r | 0 <= r < |known.logs| && known.logs[r].channel == b ensures LoggedAfter(known.logs, r, a) {
          assert r <= q.value && known.logs[p.value].channel == a;
        }
      } else {
        assert !LoggedAfter(known.logs, q.value, a);
      }
    } else {
      assert forall r :: 0 <= r < |known.logs| ==> known.logs[r].channel != b;
    }
  }

  /** A ranking lists every channel once, and each before those it may precede. */
  lemma {:induction false} RankingExactly(parsesAsIpv6: string -> bool, known: StatefulDevice, ranked: seq<Channel>)
    ensures IsRanking(parsesAsIpv6, known, ranked) <==>
            && multiset(ranked) == multiset(known.channels.Keys) && AllKnown(known, ranked)
            && forall i, j :: 0 <= i < j < |ranked| ==> MayPrecede(parsesAsIpv6, known, ranked[i], ranked[j])
  {
    if multiset(ranked) == multiset(known.channels.Keys) && AllKnown(known, ranked) {
      forall i, j | 0 <= i < j < |ranked|
        ensures !Above(KeyOf(parsesAsIpv6, known, ranked[j]), KeyOf(parsesAsIpv6, known, ranked[i]))
                <==> MayPrecede(parsesAsIpv6, known, ranked[i], ranked[j])
      {
        NoDuplicates(known, ranked, i, j);
        KeysMeanPrecedence(parsesAsIpv6, known, ranked[i], ranked[j]);
      }
    }
  }

  lemma {:induction false} InsertKeepsSorted(parsesAsIpv6: string -> bool, known: StatefulDevice, ranked: seq<Channel>,
                                             p: nat, c: Channel)
    requires c in known.channels && AllKnown(known, ranked) && IsSorted(parsesAsIpv6, known, ranked) && p <= |ranked|
    requires forall i :: 0 <= i < p ==> !Above(KeyOf(parsesAsIpv6, known, c), KeyOf(parsesAsIpv6, known, ranked[i]))
    requires p < |ranked| ==> Above(KeyOf(parsesAsIpv6, known, c), KeyOf(parsesAsIpv6, known, ranked[p]))
    ensures AllKnown(known, ranked[..p] + [c] + ranked[p..])
    ensures IsSorted(parsesAsIpv6, known, ranked[..p] + [c] + ranked[p..])
  {
    var now := ranked[..p] + [c] + ranked[p..];
    forall i, j | 0 <= i < j < |now|
      ensures !Above(KeyOf(parsesAsIpv6, known, now[j]), KeyOf(parsesAsIpv6, known, now[i]))
    {
      if i == p {
        assert now[i] == c && now[j] == ranked[j - 1];
        assert j - 1 > p ==> !Above(KeyOf(parsesAsIpv6, known, ranked[j - 1]), KeyOf(parsesAsIpv6, known, ranked[p]));
      } else if j == p {
        assert now[i] == ranked[i] && now[j] == c;
      } else {
        assert now[i] == ranked[if i < p then i else i - 1] && now[j] == ranked[if j < p then j else j - 1];
      }
    }
  }

  method Insert(parsesAsIpv6: string -> bool, known: StatefulDevice, ranked: seq<Channel>, c: Channel)
    returns (now: seq<Channel>)
    requires c in known.channels && AllKnown(known, ranked) && IsSorted(parsesAsIpv6, known, ranked)
    ensures AllKnown(known, now) && IsSorted(parsesAsIpv6, known, now)
    ensures multiset(now) == multiset(ranked) + multiset{c}
  {
    var p := 0;
    while p < |ranked| && !Above(KeyOf(parsesAsIpv6, known, c), KeyOf(parsesAsIpv6, known, ranked[p]))
      invariant 0 <= p <= |ranked|
      invariant forall i :: 0 <= i < p ==> !Above(KeyOf(parsesAsIpv6, known, c), KeyOf(parsesAsIpv6, known, ranked[i]))
    {
      p := p + 1;
    }
    InsertKeepsSorted(parsesAsIpv6, known, ranked, p, c);
    now := ranked[..p] + [c] + ranked[p..];
    assert ranked == ranked[..p] + ranked[p..];
  }

  /** The channels in an arbitrary order, as a hash map yields them, sorted by
      their keys. */
  method GetRankedChannels(parsesAsIpv6: string -> bool, known: StatefulDevice) returns (ranked: seq<Channel>)
    ensures IsRanking(parsesAsIpv6, known, ranked)
    ensures multiset(ranked) == multiset(known.channels.Keys) && AllKnown(known, ranked)
    ensures forall i, j :: 0 <= i < j < |ranked| ==> MayPrecede(parsesAsIpv6, known, ranked[i], ranked[j])
  {
    var rest := known.channels.Keys;
    ranked := [];
    while rest != {}
      invariant rest <= known.channels.Keys
      invariant AllKnown(known, ranked) && IsSorted(parsesAsIpv6, known, ranked)
      invariant multiset(ranked) + multiset(rest) == multiset(known.channels.Keys)
      decreases |rest|
    {
      var c :| c in rest;
      ranked := Insert(parsesAsIpv6, known, ranked, c);
      assert multiset(rest) == multiset(rest - {c}) + multiset{c};
      rest := rest - {c};
    }
    RankingExactly(parsesAsIpv6, known, ranked);
  }

  method GetBestChannel(parsesAsIpv6: string -> bool, known: StatefulDevice) returns (best: Option<Channel>)
    ensures best.None? <==> known.channels == map[]
    ensures best.Some? ==> best.value in known.channels
    ensures best.Some? ==> forall c :: c in known.channels && c != best.value ==>
              MayPrecede(parsesAsIpv6, known, best.value, c)
  {
    var ranked := GetRankedChannels(parsesAsIpv6, known);
    if ranked == [] {
      assert forall c :: c in known.channels ==> c in multiset(ranked);
      return None;
    }
    assert ranked[0] in ranked && ranked[0] in known.channels;
    forall c | c in known.channels && c != ranked[0]
      ensures MayPrecede(parsesAsIpv6, known, ranked[0], c)
    {
      assert c in multiset(ranked);
      var j :| 0 <= j < |ranked| && ranked[j] == c;
    }
    return Some(ranked[0]);
  }

  // ----- Positions in the capped log, and in the whole history -----

  /** Positions after the cut move by the cut; older ones are forgotten. */
  lemma {:induction false} CutShiftsPositions(logs: seq<DeviceLog>, cut: nat, channel: Channel)
    requires cut <= |logs|
    ensures LastConfirmed(logs[cut..], channel)
            == match LastConfirmed(logs, channel)
               case Some(p) => if p >= cut then Some(p - cut) else None
               case None => None
  {
    if |logs| > cut {
      var n := |logs| - 1;
      CutShiftsPositions(logs[..n], cut, channel);
      assert logs[..n][cut..] == logs[cut..][..n - cut];
    }
  }

  lemma {:induction false} LastConfirmedIsEntry(logs: seq<DeviceLog>, channel: Channel)
    ensures var p := LastConfirmed(logs, channel);
            && (p.Some? ==> logs[p.value].channel == channel)
            && (p.None? <==> forall i :: 0 <= i < |logs| ==> logs[i].channel != channel)
            && (p.Some? ==> forall i :: p.value < i < |logs| ==> logs[i].channel != channel)
  {
    if logs != [] {
      var n := |logs| - 1;
      LastConfirmedIsEntry(logs[..n], channel);
      assert forall i :: 0 <= i < n ==> logs[..n][i] == logs[i];
    }
  }

  lemma {:induction false} CappedPosition(own: seq<Confirmation>, channel: Channel)
    ensures var full := FullLog(own);
            var cut := if |full| <= MAX_LOGS then 0 else |full| - MAX_LOGS;
            LastConfirmed(LastLogs(full), channel)
            == match LastConfirmed(full, channel)
               case Some(p) => if p >= cut then Some(p - cut) else None
               case None => None
  {
    var full := FullLog(own);
    var cut := if |full| <= MAX_LOGS then 0 else |full| - MAX_LOGS;
    CutShiftsPositions(full, cut, channel);
    assert LastLogs(full) == full[cut..];
  }

  predicate SameClass(parsesAsIpv6: string -> bool, known: StatefulDevice, a: Channel, b: Channel)
    requires a in known.channels && b in known.channels
  {
    && (known.channels[a] == Available <==> known.channels[b] == Available)
    && (parsesAsIpv6(WithoutScope(a.host)) <==> parsesAsIpv6(WithoutScope(b.host)))
  }

  /** Within a class, with one of the two still in the capped log, the capped
      log orders two channels as the whole history does. */
  lemma {:induction false} RankingIsRecency(parsesAsIpv6: string -> bool, own: seq<Confirmation>,
                                            known: StatefulDevice, a: Channel, b: Channel)
    requires known.logs == LastLogs(FullLog(own))
    requires a in known.channels && b in known.channels && SameClass(parsesAsIpv6, known, a, b)
    requires LastConfirmed(known.logs, a).Some? || LastConfirmed(known.logs, b).Some?
    ensures Above(KeyOf(parsesAsIpv6, known, a), KeyOf(parsesAsIpv6, known, b))
            <==> Later(LastConfirmed(FullLog(own), a), LastConfirmed(FullLog(own), b))
  {
    CappedPosition(own, a);
    CappedPosition(own, b);
  }

  /** Two channels tie, and so may come in any order, exactly when the cap has
      forgotten both. */
  lemma {:induction false} TieMeansForgotten(parsesAsIpv6: string -> bool, known: StatefulDevice, a: Channel,
                                             b: Channel)
    requires a in known.channels && b in known.channels && a != b && SameClass(parsesAsIpv6, known, a, b)
    ensures (!Above(KeyOf(parsesAsIpv6, known, a), KeyOf(parsesAsIpv6, known, b))
             && !Above(KeyOf(parsesAsIpv6, known, b), KeyOf(parsesAsIpv6, known, a)))
            <==> LastConfirmed(known.logs, a).None? && LastConfirmed(known.logs, b).None?
  {
    LastConfirmedIsEntry(known.logs, a);
    LastConfirmedIsEntry(known.logs, b);
  }

  /** The keys order two channels as the whole history does. */
  predicate OrderedByRecency(parsesAsIpv6: string -> bool, own: seq<Confirmation>, known: StatefulDevice, a: Channel,
                             b: Channel)
    requires a in known.channels && b in known.channels
  {
    var ka, kb := KeyOf(parsesAsIpv6, known, a), KeyOf(parsesAsIpv6, known, b);
    var full := FullLog(own);
    && (Above(ka, kb) <==> Later(LastConfirmed(full, a), LastConfirmed(full, b)))
    && (Above(kb, ka) <==> Later(LastConfirmed(full, b), LastConfirmed(full, a)))
  }

  lemma {:induction false} KeptIsLogged(own: seq<Confirmation>, channel: Channel)
    requires own != [] && channel in StateOf(own).channels
    ensures LastConfirmed(FullLog(own), channel).Some?
  {
    KeptChannels(own, channel);
    LastConfirmedIsEntry(FullLog(own), channel);
    var i :| 0 <= i < |own| && own[i].device.channel == channel && SilentSince(own, i, channel.host);
    assert FullLog(own)[i].channel == channel;
  }

  /** Two channels of a class are ordered by true recency if and only if the
      capped log still has one of them. */
  lemma {:induction false} RecencyNeedsOneLogged(parsesAsIpv6: string -> bool, own: seq<Confirmation>, a: Channel,
                                                 b: Channel)
    requires own != [] && a in StateOf(own).channels && b in StateOf(own).channels && a != b
    requires SameClass(parsesAsIpv6, StateOf(own), a, b)
    ensures var known := StateOf(own);
      OrderedByRecency(parsesAsIpv6, own, known, a, b)
      <==> LastConfirmed(known.logs, a).Some? || LastConfirmed(known.logs, b).Some?
  {
    var known := StateOf(own);
    if LastConfirmed(known.logs, a).Some? || LastConfirmed(known.logs, b).Some? {
      RankingIsRecency(parsesAsIpv6, own, known, a, b);
      RankingIsRecency(parsesAsIpv6, own, known, b, a);
    } else {
      TieMeansForgotten(parsesAsIpv6, known, a, b);
      KeptIsLogged(own, a);
      KeptIsLogged(own, b);
      LastConfirmedIsEntry(FullLog(own), a);
      LastConfirmedIsEntry(FullLog(own), b);
    }
  }

  /** `a` was confirmed after every confirmation over `b`. */
  ghost predicate ConfirmedLast(own: seq<Confirmation>, a: Channel, b: Channel) {
    exists p :: 0 <= p < |own| && own[p].device.channel == a
                && forall q :: p < q < |own| ==> own[q].device.channel != b
  }

  lemma {:induction false} LaterIsLast(own: seq<Confirmation>, a: Channel, b: Channel)
    requires Later(LastConfirmed(FullLog(own), a), LastConfirmed(FullLog(own), b))
    ensures ConfirmedLast(own, a, b)
  {
    var full := FullLog(own);
    LastConfirmedIsEntry(full, a);
    LastConfirmedIsEntry(full, b);
    var p := LastConfirmed(full, a).value;
    assert full[p].channel == own[p].device.channel;
    forall q | p < q < |own| ensures own[q].device.channel != b {
      assert full[q].channel == own[q].device.channel;
    }
  }

  /** In any ranking: available channels first, then IPv6, then the one
      confirmed last in the whole history, as far as the log remembers either. */
  lemma {:induction false} RankedByTrueRecency(parsesAsIpv6: string -> bool, own: seq<Confirmation>,
                                               known: StatefulDevice, ranked: seq<Channel>, i: nat, j: nat)
    requires known.logs == LastLogs(FullLog(own)) && IsRanking(parsesAsIpv6, known, ranked)
    requires i < j < |ranked|
    ensures var a, b := ranked[i], ranked[j];
            var ipv6 := (c: Channel) => parsesAsIpv6(WithoutScope(c.host));
            if known.channels[a] != known.channels[b] then known.channels[a] == Available
            else if ipv6(a) != ipv6(b) then ipv6(a)
            else (exists log :: log in known.logs && (log.channel == a || log.channel == b)) ==>
                   ConfirmedLast(own, a, b)
  {
    var a, b := ranked[i], ranked[j];
    NoDuplicates(known, ranked, i, j);
    RankingExactly(parsesAsIpv6, known, ranked);
    if SameClass(parsesAsIpv6, known, a, b) {
      LastConfirmedIsEntry(known.logs, a);
      LastConfirmedIsEntry(known.logs, b);
      if log :| log in known.logs && (log.channel == a || log.channel == b) {
        RankingIsRecency(parsesAsIpv6, own, known, a, b);
        TieMeansForgotten(parsesAsIpv6, known, a, b);
        LaterIsLast(own, a, b);
      }
    }
  }

  lemma {:induction false} NoDuplicates(known: StatefulDevice, ranked: seq<Channel>, i: nat, j: nat)
    requires multiset(ranked) == multiset(known.channels.Keys) && i < j < |ranked|
    ensures ranked[i] != ranked[j]
  {
    assert ranked == ranked[..j] + [ranked[j]] + ranked[j + 1..];
    assert ranked[i] in ranked[..j];
    assert multiset(ranked) == multiset(ranked[..j]) + multiset{ranked[j]} + multiset(ranked[j + 1..]);
    assert multiset(known.channels.Keys)[ranked[j]] <= 1;
  }

  // ----- A history the log has outgrown -----

  /** Confirmed over `a`, then over `b`, and then MAX_LOGS times over `c`. */
  function Outgrown(device: Device, a: Channel, b: Channel, c: Channel): (own: seq<Confirmation>)
    ensures |own| == MAX_LOGS + 2
    ensures own[0].device.channel == a && own[1].device.channel == b
    ensures forall i :: 2 <= i < |own| ==> own[i].device.channel == c
  {
    [Confirmation(device.(channel := a), 0), Confirmation(device.(channel := b), 1)]
    + seq(MAX_LOGS, i => Confirmation(device.(channel := c), 2))
  }

  predicate ThreeHosts(a: Channel, b: Channel, c: Channel) {
    a.host != b.host && a.host != c.host && b.host != c.host
  }

  lemma {:induction false} OutgrownChannels(device: Device, a: Channel, b: Channel, c: Channel)
    requires ThreeHosts(a, b, c)
    ensures StateOf(Outgrown(device, a, b, c)).channels.Keys == {a, b, c}
  {
    var own := Outgrown(device, a, b, c);
    assert own[0].device.channel == a && SilentSince(own, 0, a.host);
    assert own[1].device.channel == b && SilentSince(own, 1, b.host);
    assert own[|own| - 1].device.channel == c && SilentSince(own, |own| - 1, c.host);
    forall channel: Channel ensures channel in StateOf(own).channels <==> channel in {a, b, c} {
      KeptChannels(own, channel);
    }
  }

  lemma {:induction false} OutgrownLog(device: Device, a: Channel, b: Channel, c: Channel)
    requires ThreeHosts(a, b, c)
    ensures var own := Outgrown(device, a, b, c);
      && LastConfirmed(StateOf(own).logs, a).None? && LastConfirmed(StateOf(own).logs, b).None?
      && LastConfirmed(StateOf(own).logs, c).Some?
      && Later(LastConfirmed(FullLog(own), b), LastConfirmed(FullLog(own), a))
  {
    var own := Outgrown(device, a, b, c);
    var full, logs := FullLog(own), StateOf(own).logs;
    assert logs == full[2..];
    assert forall i :: 0 <= i < |logs| ==> logs[i].channel == full[i + 2].channel == c;
    LastConfirmedIsEntry(logs, a);
    LastConfirmedIsEntry(logs, b);
    LastConfirmedIsEntry(logs, c);
    LastConfirmedIsEntry(full, a);
    LastConfirmedIsEntry(full, b);
    assert full[0].channel == a && full[1].channel == b;
  }

  lemma {:induction false} TiedInAnyOrder(parsesAsIpv6: string -> bool, known: StatefulDevice, a: Channel, b: Channel,
                                          c: Channel)
    requires known.channels.Keys == {a, b, c} && a != b && a != c && b != c
    requires SameClass(parsesAsIpv6, known, a, b) && SameClass(parsesAsIpv6, known, a, c)
    requires LastConfirmed(known.logs, a).None? && LastConfirmed(known.logs, b).None?
    ensures IsRanking(parsesAsIpv6, known, [c, a, b])
  {
    var ranked := [c, a, b];
    assert AllKnown(known, ranked);
    assert IsSorted(parsesAsIpv6, known, ranked);
    assert multiset(ranked) == multiset({a, b, c});
  }

  /** Then the ranking may put `a` before `b`, which was confirmed later. */
  lemma {:induction false} RankingMayContradictRecency(parsesAsIpv6: string -> bool, device: Device, a: Channel,
                                                       b: Channel, c: Channel)
    requires ThreeHosts(a, b, c)
    requires parsesAsIpv6(WithoutScope(a.host)) == parsesAsIpv6(WithoutScope(b.host))
             == parsesAsIpv6(WithoutScope(c.host))
    ensures var own := Outgrown(device, a, b, c);
      && IsRanking(parsesAsIpv6, StateOf(own), [c, a, b])
      && Later(LastConfirmed(FullLog(own), b), LastConfirmed(FullLog(own), a))
  {
    OutgrownChannels(device, a, b, c);
    OutgrownLog(device, a, b, c);
    TiedInAnyOrder(parsesAsIpv6, StateOf(Outgrown(device, a, b, c)), a, b, c);
  }
}
