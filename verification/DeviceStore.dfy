/** The in-memory store of discovered devices, and the complete confirmation
    history it stands for. */
module Discovery {
  import opened Options

  const MAX_LOGS: nat := 100

  datatype Protocol = Http | Https

  /** A channel is the address of an HTTP server; no other kind exists. */
  datatype Channel = Channel(host: string, port: nat, protocol: Protocol)

  datatype Device = Device(
    alias: string, version: string, deviceModel: Option<string>, deviceType: Option<string>,
    fingerprint: string, channel: Channel, download: bool)

  datatype ChannelStatus = Available | NotReachable

  datatype LogKind = Discovered | Updated

  datatype DeviceLog = DeviceLog(timestamp: nat, kind: LogKind, channel: Channel)

  datatype StatefulDevice = StatefulDevice(device: Device, channels: map<Channel, ChannelStatus>, logs: seq<DeviceLog>)

  datatype Event = Event(kind: LogKind, device: Device)

  /** One call of `upsert`. */
  datatype Confirmation = Confirmation(device: Device, timestamp: nat)

  predicate SameEndpoint(a: Channel, b: Channel) {
    a.host == b.host
  }

  // ----- The history a store stands for -----

  /** The confirmations of one device, oldest first. */
  function Own(history: seq<Confirmation>, fingerprint: string): seq<Confirmation> {
    if history == [] then []
    else
      var n := |history| - 1;
      Own(history[..n], fingerprint) + if history[n].device.fingerprint == fingerprint then [history[n]] else []
  }

  /** The fingerprints in the order they were first seen. */
  function Fingerprints(history: seq<Confirmation>): seq<string> {
    if history == [] then []
    else
      var n := |history| - 1;
      var known := Fingerprints(history[..n]);
      known + if history[n].device.fingerprint in known then [] else [history[n].device.fingerprint]
  }

  /** The channel of the latest confirmation over a host. */
  function Latest(own: seq<Confirmation>, host: string): Option<Channel> {
    if own == [] then None
    else
      var n := |own| - 1;
      if own[n].device.channel.host == host then Some(own[n].device.channel) else Latest(own[..n], host)
  }

  function ChannelsOf(own: seq<Confirmation>): set<Channel> {
    set i | 0 <= i < |own| :: own[i].device.channel
  }

  function FullLog(own: seq<Confirmation>): seq<DeviceLog> {
    seq(|own|, i requires 0 <= i < |own| =>
      DeviceLog(own[i].timestamp, if i == 0 then Discovered else Updated, own[i].device.channel))
  }

  function LastLogs(logs: seq<DeviceLog>): (r: seq<DeviceLog>)
    ensures |r| <= MAX_LOGS
  {
    if |logs| <= MAX_LOGS then logs else logs[|logs| - MAX_LOGS..]
  }

  /** What the store must know of a device: how it was last confirmed, the
      latest channel of every host, and the last confirmations. */
  function StateOf(own: seq<Confirmation>): StatefulDevice
    requires own != []
  {
    StatefulDevice(
      own[|own| - 1].device,
      map channel | channel in ChannelsOf(own) && Latest(own, channel.host) == Some(channel) :: Available,
      LastLogs(FullLog(own)))
  }

  /** A device's last hundred confirmations are logged, in order: when each was,
      whether it was the first one, and over which channel. */
  lemma {:induction false} LogIsRecent(own: seq<Confirmation>, i: nat)
    requires i < |LastLogs(FullLog(own))|
    ensures var logs := LastLogs(FullLog(own));
            && |logs| == (if |own| < 100 then |own| else 100)
            && var c := own[|own| - |logs| + i];
               && logs[i].timestamp == c.timestamp && logs[i].channel == c.device.channel
               && (logs[i].kind == Discovered <==> |own| <= 100 && i == 0)
  {
    var full := FullLog(own);
    assert |full| > MAX_LOGS ==> LastLogs(full) == full[|full| - MAX_LOGS..];
  }

  /** A device is what it last confirmed itself as, with that log, and what is
      kept of its channels works. */
  lemma {:induction false} StateIsRecent(own: seq<Confirmation>, channel: Channel)
    requires own != []
    ensures StateOf(own).device == own[|own| - 1].device && StateOf(own).logs == LastLogs(FullLog(own))
    ensures channel in StateOf(own).channels ==> StateOf(own).channels[channel] == Available
  {
  }

  lemma {:induction false} SeenHasOwn(history: seq<Confirmation>, fingerprint: string)
    ensures fingerprint in Fingerprints(history) <==> Own(history, fingerprint) != []
  {
    if history != [] {
      SeenHasOwn(history[..|history| - 1], fingerprint);
    }
  }

  /** The devices are exactly what the history calls for, in first-seen order. */
  ghost predicate Reflects(devices: seq<StatefulDevice>, history: seq<Confirmation>) {
    var fs := Fingerprints(history);
    && |devices| == |fs|
    && forall i :: 0 <= i < |fs| ==> IsStateOf(devices[i], Own(history, fs[i]))
  }

  ghost predicate IsStateOf(known: StatefulDevice, own: seq<Confirmation>) {
    own != [] && known == StateOf(own)
  }

  /** Read without recursion: a channel is kept exactly when some confirmation
      used it and no later one came over the same host. */
  lemma {:induction false} KeptChannels(own: seq<Confirmation>, channel: Channel)
    requires own != []
    ensures channel in StateOf(own).channels
            <==> exists i :: 0 <= i < |own| && own[i].device.channel == channel && SilentSince(own, i, channel.host)
  {
    LatestIsLast(own, channel.host);
    if channel in StateOf(own).channels {
      var i :| 0 <= i < |own| && own[i].device.channel == Latest(own, channel.host).value
               && SilentSince(own, i, channel.host);
      assert own[i].device.channel == channel;
    }
    if i :| 0 <= i < |own| && own[i].device.channel == channel && SilentSince(own, i, channel.host) {
      var j :| 0 <= j < |own| && own[j].device.channel.host == channel.host
               && Some(own[j].device.channel) == Latest(own, channel.host) && SilentSince(own, j, channel.host);
      assert i == j;
      assert channel in ChannelsOf(own);
    }
  }

  /** No confirmation after the `i`-th came over `host`. */
  ghost predicate SilentSince(own: seq<Confirmation>, i: int, host: string) {
    forall j :: i < j < |own| && j >= 0 ==> own[j].device.channel.host != host
  }

  lemma {:induction false} SilentOneMore(own: seq<Confirmation>, i: nat, host: string)
    requires own != [] && own[|own| - 1].device.channel.host != host
    requires SilentSince(own[..|own| - 1], i, host)
    ensures SilentSince(own, i, host)
  {
    var earlier := own[..|own| - 1];
    forall j | i < j < |own| && j >= 0
      ensures own[j].device.channel.host != host
    {
      if j < |own| - 1 {
        assert earlier[j].device.channel.host != host;
      }
    }
  }

  lemma {:induction false} LatestIsLast(own: seq<Confirmation>, host: string)
    ensures match Latest(own, host)
            case None => forall i :: 0 <= i < |own| ==> own[i].device.channel.host != host
            case Some(channel) =>
              exists i :: 0 <= i < |own| && own[i].device.channel == channel
                  && channel.host == host && SilentSince(own, i, host)
  {
    if own != [] {
      var n := |own| - 1;
      if own[n].device.channel.host == host {
        assert SilentSince(own, n, host);
      } else {
        LatestIsLast(own[..n], host);
        if Latest(own[..n], host).Some? {
          var i :| 0 <= i < n && own[..n][i].device.channel == Latest(own, host).value
                   && SilentSince(own[..n], i, host);
          SilentOneMore(own, i, host);
        } else {
          forall i | 0 <= i < |own|
            ensures own[i].device.channel.host != host
          {
            if i < n { assert own[..n][i] == own[i]; }
          }
        }
      }
    }
  }

  // ----- One confirmation -----

  /** A confirmation of a known device, as the store merges it. */
  function Merge(known: StatefulDevice, c: Confirmation): StatefulDevice {
    var kept := map channel | channel in known.channels && !SameEndpoint(channel, c.device.channel) ::
      known.channels[channel];
    StatefulDevice(
      c.device,
      kept[c.device.channel := Available],
      LastLogs(known.logs + [DeviceLog(c.timestamp, Updated, c.device.channel)]))
  }

  function New(c: Confirmation): StatefulDevice {
    StatefulDevice(c.device, map[c.device.channel := Available], [DeviceLog(c.timestamp, Discovered, c.device.channel)])
  }

  lemma {:induction false} CapOneMore(logs: seq<DeviceLog>, entry: DeviceLog)
    ensures LastLogs(logs + [entry]) == LastLogs(LastLogs(logs) + [entry])
  {
    if |logs| > MAX_LOGS {
      var from := |logs| - MAX_LOGS;
      assert (logs + [entry])[from + 1..] == (logs[from..] + [entry])[1..];
    }
  }

  lemma {:induction false} FullLogOneMore(own: seq<Confirmation>, c: Confirmation)
    requires own != []
    ensures FullLog(own + [c]) == FullLog(own) + [DeviceLog(c.timestamp, Updated, c.device.channel)]
  {
  }

  lemma {:induction false} LatestOneMore(own: seq<Confirmation>, c: Confirmation, host: string)
    ensures Latest(own + [c], host)
            == if c.device.channel.host == host then Some(c.device.channel) else Latest(own, host)
  {
    assert (own + [c])[..|own|] == own;
  }

  lemma {:induction false} ChannelsOneMore(own: seq<Confirmation>, c: Confirmation)
    ensures ChannelsOf(own + [c]) == ChannelsOf(own) + {c.device.channel}
  {
    var more := own + [c];
    forall channel | channel in ChannelsOf(own) + {c.device.channel}
      ensures channel in ChannelsOf(more)
    {
      if channel in ChannelsOf(own) {
        var i :| 0 <= i < |own| && own[i].device.channel == channel;
        assert more[i].device.channel == channel;
      } else {
        assert more[|own|].device.channel == channel;
      }
    }
  }

  lemma {:induction false} MergeIsOneMore(own: seq<Confirmation>, c: Confirmation)
    requires own != []
    ensures StateOf(own + [c]) == Merge(StateOf(own), c)
  {
    FullLogOneMore(own, c);
    CapOneMore(FullLog(own), DeviceLog(c.timestamp, Updated, c.device.channel));
    ChannelsOneMore(own, c);
    var now, merged := StateOf(own + [c]).channels, Merge(StateOf(own), c).channels;
    forall channel: Channel
      ensures channel in now <==> channel in merged
    {
      LatestOneMore(own, c, channel.host);
    }
    assert now == merged;
  }

  lemma {:induction false} NewIsFirst(c: Confirmation)
    ensures StateOf([c]) == New(c)
  {
    var own := [c];
    assert own[0].device.channel in ChannelsOf(own);
    assert forall channel :: channel in ChannelsOf(own) ==> channel == c.device.channel;
    assert Latest(own, c.device.channel.host) == Some(c.device.channel);
    assert StateOf(own).channels == New(c).channels;
  }

  lemma {:induction false} OwnOneMore(history: seq<Confirmation>, c: Confirmation, f: string)
    ensures Own(history + [c], f) == Own(history, f) + if c.device.fingerprint == f then [c] else []
  {
    assert (history + [c])[..|history|] == history;
  }

  lemma {:induction false} FingerprintsOneMore(history: seq<Confirmation>, c: Confirmation)
    ensures var known := Fingerprints(history);
            Fingerprints(history + [c]) == known + if c.device.fingerprint in known then [] else [c.device.fingerprint]
  {
    assert (history + [c])[..|history|] == history;
  }

  /** Fingerprints are unique. */
  lemma {:induction false} FingerprintsUnique(history: seq<Confirmation>, i: nat, j: nat)
    requires i < j < |Fingerprints(history)|
    ensures Fingerprints(history)[i] != Fingerprints(history)[j]
  {
    var n := |history| - 1;
    if j < |Fingerprints(history[..n])| {
      FingerprintsUnique(history[..n], i, j);
    }
  }

  lemma {:induction false} OwnIsOwn(history: seq<Confirmation>, f: string)
    ensures forall i :: 0 <= i < |Own(history, f)| ==> Own(history, f)[i].device.fingerprint == f
  {
    if history != [] {
      OwnIsOwn(history[..|history| - 1], f);
    }
  }

  lemma {:induction false} FingerprintAt(devices: seq<StatefulDevice>, history: seq<Confirmation>, i: nat)
    requires Reflects(devices, history) && i < |devices|
    ensures devices[i].device.fingerprint == Fingerprints(history)[i]
  {
    OwnIsOwn(history, Fingerprints(history)[i]);
  }

  lemma {:induction false} OwnOfOther(history: seq<Confirmation>, c: Confirmation, f: string)
    requires c.device.fingerprint != f
    ensures Own(history + [c], f) == Own(history, f)
  {
    OwnOneMore(history, c, f);
    assert Own(history, f) + [] == Own(history, f);
  }

  lemma {:induction false} NewcomerOwn(history: seq<Confirmation>, c: Confirmation)
    requires c.device.fingerprint !in Fingerprints(history)
    ensures Own(history + [c], c.device.fingerprint) == [c]
  {
    SeenHasOwn(history, c.device.fingerprint);
    OwnOneMore(history, c, c.device.fingerprint);
  }

  /** A new device is appended. */
  lemma {:induction false} ReflectsNew(devices: seq<StatefulDevice>, history: seq<Confirmation>, c: Confirmation)
    requires Reflects(devices, history) && c.device.fingerprint !in Fingerprints(history)
    ensures Reflects(devices + [New(c)], history + [c])
    ensures Own(history + [c], c.device.fingerprint) == [c]
  {
    var fs := Fingerprints(history);
    FingerprintsOneMore(history, c);
    NewcomerOwn(history, c);
    forall i | 0 <= i < |fs| ensures Own(history + [c], fs[i]) == Own(history, fs[i]) {
      OwnOfOther(history, c, fs[i]);
    }
    NewIsFirst(c);
    assert IsStateOf(New(c), Own(history + [c], c.device.fingerprint));
  }

  /** A known device is merged where it stands. */
  lemma {:induction false} ReflectsKnown(devices: seq<StatefulDevice>, history: seq<Confirmation>, c: Confirmation,
                                         k: nat)
    requires Reflects(devices, history) && k < |devices| && Fingerprints(history)[k] == c.device.fingerprint
    ensures Reflects(devices[k := Merge(devices[k], c)], history + [c])
    ensures IsStateOf(Merge(devices[k], c), Own(history + [c], c.device.fingerprint))
  {
    var fs := Fingerprints(history);
    FingerprintsOneMore(history, c);
    assert Fingerprints(history + [c]) == fs;
    OwnOneMore(history, c, fs[k]);
    MergeIsOneMore(Own(history, fs[k]), c);
    forall i | 0 <= i < |fs| && i != k
      ensures Own(history + [c], fs[i]) == Own(history, fs[i])
    {
      OwnOneMore(history, c, fs[i]);
      FingerprintsUnique(history, if i < k then i else k, if i < k then k else i);
    }
  }

  // ----- The store -----

  class DeviceStore {
    var devices: seq<StatefulDevice>
    ghost var history: seq<Confirmation>

    ghost predicate Valid()
      reads this
    {
      Reflects(devices, history)
    }

    constructor ()
      ensures Valid() && history == []
    {
      devices, history := [], [];
    }

    /** Where a fingerprint stands; the length when it is unknown. */
    method Find(fingerprint: string) returns (k: nat)
      requires Valid()
      ensures k <= |devices|
      ensures fingerprint in Fingerprints(history) <==> k < |devices|
      ensures k < |devices| ==> Fingerprints(history)[k] == fingerprint
    {
      k := 0;
      while k < |devices|
        invariant 0 <= k <= |devices|
        invariant forall i :: 0 <= i < k ==> Fingerprints(history)[i] != fingerprint
      {
        FingerprintAt(devices, history, k);
        if devices[k].device.fingerprint == fingerprint {
          return;
        }
        k := k + 1;
      }
    }

    /** The merge of a confirmation into a known device: its endpoint is replaced
        or added, the log grows by one entry and stays under its cap. */
    static method Confirm(known: StatefulDevice, device: Device, timestamp: nat) returns (merged: StatefulDevice)
      ensures merged == Merge(known, Confirmation(device, timestamp))
      ensures merged.device == device
      ensures forall channel :: channel in merged.channels <==>
                channel == device.channel || (channel in known.channels && channel.host != device.channel.host)
      ensures forall channel :: channel in merged.channels ==>
                merged.channels[channel] == if channel == device.channel then Available else known.channels[channel]
      ensures |merged.logs| == if |known.logs| < 100 then |known.logs| + 1 else 100
      ensures merged.logs[|merged.logs| - 1] == DeviceLog(timestamp, Updated, device.channel)
      ensures forall i :: 0 <= i < |merged.logs| - 1 ==>
                merged.logs[i] == known.logs[|known.logs| + 1 - |merged.logs| + i]
    {
      var channels := map channel | channel in known.channels && !SameEndpoint(channel, device.channel) ::
        known.channels[channel];
      channels := channels[device.channel := Available];
      var logs := known.logs + [DeviceLog(timestamp, Updated, device.channel)];
      if |logs| > MAX_LOGS {
        var excess := |logs| - MAX_LOGS;
        logs := logs[excess..];
      }
      merged := StatefulDevice(device, channels, logs);
    }

    /** Adds or updates a device. After any sequence of calls the devices are
        what the whole history of calls says they should be. */
    method Upsert(device: Device, timestamp: nat) returns (event: Event, stored: StatefulDevice)
      requires Valid()
      modifies this
      ensures Valid() && history == old(history) + [Confirmation(device, timestamp)]
      ensures event == Event(if device.fingerprint in Fingerprints(old(history)) then Updated else Discovered, device)
      ensures IsStateOf(stored, Own(history, device.fingerprint))
    {
      ghost var c := Confirmation(device, timestamp);
      var k := Find(device.fingerprint);
      if k < |devices| {
        ReflectsKnown(devices, history, c, k);
        stored := Confirm(devices[k], device, timestamp);
        devices := devices[k := stored];
        event := Event(Updated, device);
      } else {
        ReflectsNew(devices, history, c);
        NewIsFirst(c);
        stored := New(Confirmation(device, timestamp));
        devices := devices + [stored];
        event := Event(Discovered, device);
      }
      history := history + [c];
    }

    method ByFingerprint(fingerprint: string) returns (found: Option<StatefulDevice>)
      requires Valid()
      ensures found.None? <==> Own(history, fingerprint) == []
      ensures found.Some? ==> IsStateOf(found.value, Own(history, fingerprint))
    {
      SeenHasOwn(history, fingerprint);
      var k := Find(fingerprint);
      found := if k < |devices| then Some(devices[k]) else None;
    }
  }
}
