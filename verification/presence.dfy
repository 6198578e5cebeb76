/**
 Multi-device presence: the Redis sets, and the outbox events announced for real transitions.
 */
module Presence {
  import opened Domain

  type DeviceId = nat

  datatype Device = Device(userId: UserId, deviceId: DeviceId)

  /** presence.online or presence.offline, with the connection count it carries. */
  datatype Notice = Notice(online: bool, device: Device, connectionCount: nat)

  /** `keys` are the connection keys, `sets` the per-user presence sets; an emptied set's key is gone. */
  datatype State = State(
    keys: set<Device>,
    sets: map<UserId, set<DeviceId>>,
    lastSeen: set<UserId>,
    outbox: seq<Notice>)

  const EMPTY := State({}, map[], {}, [])

  datatype Command = PresenceSet(userId: Option<UserId>, deviceId: Option<DeviceId>, isOnline: bool)

  function DevicesOf(s: State, u: UserId): set<DeviceId> {
    if u in s.sets then s.sets[u] else {}
  }

  predicate Connected(s: State, d: Device) {
    d.deviceId in DevicesOf(s, d.userId)
  }

  function GoOnline(s: State, d: Device): State {
    var sets := s.sets[d.userId := DevicesOf(s, d.userId) + {d.deviceId}];
    s.(keys := s.keys + {d}, sets := sets,
       outbox := if Connected(s, d) then s.outbox else s.outbox + [Notice(true, d, |sets[d.userId]|)])
  }

  function GoOffline(s: State, d: Device): State {
    var rest := DevicesOf(s, d.userId) - {d.deviceId};
    s.(keys := s.keys - {d},
       sets := if rest == {} then s.sets - {d.userId} else s.sets[d.userId := rest],
       lastSeen := if rest == {} then s.lastSeen + {d.userId} else s.lastSeen,
       outbox := if d in s.keys || Connected(s, d) then s.outbox + [Notice(false, d, |rest|)] else s.outbox)
  }

  function Handle(s: State, c: Command): State {
    if c.userId.None? || c.deviceId.None? then s
    else
      var d := Device(c.userId.value, c.deviceId.value);
      if c.isOnline then GoOnline(s, d) else GoOffline(s, d)
  }

  /** The Redis repository and the handler's outbox, changed command by command. */
  class PresenceRepository {
    var keys: set<Device>
    var sets: map<UserId, set<DeviceId>>
    var lastSeen: set<UserId>
    var outbox: seq<Notice>

    function Current(): State
      reads this
    {
      State(keys, sets, lastSeen, outbox)
    }

    constructor ()
      ensures Current() == EMPTY
    {
      keys, sets, lastSeen, outbox := {}, map[], {}, [];
    }

    /** getPresence: how many devices are connected. */
    method GetPresence(u: UserId) returns (count: nat)
      ensures count == |DevicesOf(Current(), u)|
    {
      if u !in sets {
        return 0;
      }
      return |sets[u]|;
    }

    method AddConnection(d: Device) returns (count: nat, changed: bool)
      modifies this`keys, this`sets
      ensures keys == old(keys) + {d}
      ensures sets == old(sets)[d.userId := DevicesOf(old(Current()), d.userId) + {d.deviceId}]
      ensures changed <==> !Connected(old(Current()), d)
      ensures count == |sets[d.userId]|
    {
      keys := keys + {d};
      var before := if d.userId in sets then sets[d.userId] else {};
      changed := d.deviceId !in before;
      sets := sets[d.userId := before + {d.deviceId}];
      count := GetPresence(d.userId);
    }

    method RemoveConnection(d: Device) returns (count: nat, changed: bool)
      modifies this`keys, this`sets, this`lastSeen
      ensures changed <==> d in old(keys) || Connected(old(Current()), d)
      ensures Current() == GoOffline(old(Current()), d).(outbox := old(outbox))
      ensures count == |DevicesOf(old(Current()), d.userId) - {d.deviceId}|
    {
      var connectionRemoved := d in keys;
      keys := keys - {d};
      var before := if d.userId in sets then sets[d.userId] else {};
      var membershipRemoved := d.deviceId in before;
      var rest := before - {d.deviceId};
      if d.userId in sets {
        sets := sets[d.userId := rest];
      }
      count := GetPresence(d.userId);
      if count == 0 {
        lastSeen := lastSeen + {d.userId};
        sets := sets - {d.userId};
      }
      changed := connectionRemoved || membershipRemoved;
    }

    /** handlePresenceSet. */
    method HandlePresenceSet(c: Command)
      modifies this
      ensures Current() == Handle(old(Current()), c)
    {
      if c.userId.None? || c.deviceId.None? {
        return;
      }
      var d := Device(c.userId.value, c.deviceId.value);
      if c.isOnline {
        var count, changed := AddConnection(d);
        if changed {
          outbox := outbox + [Notice(true, d, count)];
        }
      } else {
        var count, changed := RemoveConnection(d);
        if changed {
          outbox := outbox + [Notice(false, d, count)];
        }
      }
    }
  }

  // ---------- Conservation ----------

  function Run(s: State, commands: seq<Command>): State
    decreases |commands|
  {
    if commands == [] then s else Run(Handle(s, commands[0]), commands[1..])
  }

  /** What the last event about a device said: offline when there is none. */
  function LastSaid(outbox: seq<Notice>, d: Device): bool
    decreases |outbox|
  {
    if outbox == [] then false
    else
      var last := outbox[|outbox| - 1];
      if last.device == d then last.online else LastSaid(outbox[..|outbox| - 1], d)
  }

  /** A user's online minus offline events. */
  function Balance(outbox: seq<Notice>, u: UserId): int
    decreases |outbox|
  {
    if outbox == [] then 0
    else
      var last := outbox[|outbox| - 1];
      Balance(outbox[..|outbox| - 1], u) + Weight(last, u)
  }

  function Weight(n: Notice, u: UserId): int {
    if n.device.userId != u then 0 else if n.online then 1 else -1
  }

  /** Each event flips what was last said about its device, and carries the balance it leaves. */
  ghost predicate Told(outbox: seq<Notice>) {
    forall i | 0 <= i < |outbox| ::
      outbox[i].online == !LastSaid(outbox[..i], outbox[i].device)
      && outbox[i].connectionCount == Balance(outbox[..i + 1], outbox[i].device.userId)
  }

  ghost predicate Inv(s: State) {
    && (forall d :: d in s.keys <==> Connected(s, d))
    && (forall d :: Connected(s, d) <==> LastSaid(s.outbox, d))
    && (forall u :: |DevicesOf(s, u)| == Balance(s.outbox, u))
    && Told(s.outbox)
  }

  lemma Announce(outbox: seq<Notice>, n: Notice)
    ensures forall d :: LastSaid(outbox + [n], d) == if d == n.device then n.online else LastSaid(outbox, d)
    ensures forall u :: Balance(outbox + [n], u) == Balance(outbox, u) + Weight(n, u)
  {
  }

  lemma {:induction false} ToldMore(outbox: seq<Notice>, n: Notice)
    requires Told(outbox) && n.online == !LastSaid(outbox, n.device)
    requires n.connectionCount == Balance(outbox, n.device.userId) + Weight(n, n.device.userId)
    ensures Told(outbox + [n])
  {
    Announce(outbox, n);
    var all := outbox + [n];
    forall i | 0 <= i < |all|
      ensures all[i].online == !LastSaid(all[..i], all[i].device)
           && all[i].connectionCount == Balance(all[..i + 1], all[i].device.userId)
    {
      if i < |outbox| {
        assert all[..i] == outbox[..i] && all[..i + 1] == outbox[..i + 1];
      } else {
        assert all[..i] == outbox && all[..i + 1] == all;
      }
    }
  }

  /** One device moved, and that was announced. */
  ghost predicate Moved(s: State, d: Device, t: State, n: Notice) {
    && t.outbox == s.outbox + [n] && n == Notice(!Connected(s, d), d, |DevicesOf(t, d.userId)|)
    && t.keys == (if n.online then s.keys + {d} else s.keys - {d})
    && (forall u :: u != d.userId ==> DevicesOf(t, u) == DevicesOf(s, u))
    && DevicesOf(t, d.userId)
         == (if n.online then DevicesOf(s, d.userId) + {d.deviceId} else DevicesOf(s, d.userId) - {d.deviceId})
  }

  lemma MovedMembers(s: State, d: Device, t: State, n: Notice)
    requires Moved(s, d, t, n)
    ensures forall e :: Connected(t, e) <==> if e == d then n.online else Connected(s, e)
    ensures forall u :: |DevicesOf(t, u)| == |DevicesOf(s, u)| + Weight(n, u)
  {
  }

  lemma {:induction false} MovedKeeps(s: State, d: Device, t: State, n: Notice)
    requires Inv(s) && Moved(s, d, t, n)
    ensures Inv(t)
  {
    MovedMembers(s, d, t, n);
    Announce(s.outbox, n);
    assert |DevicesOf(s, d.userId)| == Balance(s.outbox, d.userId);
    assert Connected(s, d) <==> LastSaid(s.outbox, d);
    ToldMore(s.outbox, n);
  }

  lemma UnmovedKeeps(s: State, t: State)
    requires Inv(s) && t.outbox == s.outbox && t.keys == s.keys && forall u :: DevicesOf(t, u) == DevicesOf(s, u)
    ensures Inv(t)
  {
  }

  lemma {:induction false} OnlineKeeps(s: State, d: Device, t: State)
    requires Inv(s) && t == GoOnline(s, d)
    ensures Inv(t)
  {
    if Connected(s, d) {
      assert DevicesOf(s, d.userId) + {d.deviceId} == DevicesOf(s, d.userId);
      assert s.keys + {d} == s.keys;
      UnmovedKeeps(s, t);
    } else {
      MovedKeeps(s, d, t, Notice(true, d, |DevicesOf(t, d.userId)|));
    }
  }

  lemma {:induction false} OfflineKeeps(s: State, d: Device, t: State)
    requires Inv(s) && t == GoOffline(s, d)
    ensures Inv(t)
  {
    assert d in s.keys <==> Connected(s, d);
    if Connected(s, d) {
      MovedKeeps(s, d, t, Notice(false, d, |DevicesOf(t, d.userId)|));
    } else {
      assert DevicesOf(s, d.userId) - {d.deviceId} == DevicesOf(s, d.userId);
      assert s.keys - {d} == s.keys;
      UnmovedKeeps(s, t);
    }
  }

  lemma {:induction false} RunKeeps(s: State, commands: seq<Command>)
    requires Inv(s)
    ensures Inv(Run(s, commands))
    decreases |commands|
  {
    if commands != [] {
      var c := commands[0];
      if c.userId.Some? && c.deviceId.Some? {
        var d := Device(c.userId.value, c.deviceId.value);
        if c.isOnline { OnlineKeeps(s, d, Handle(s, c)); } else { OfflineKeeps(s, d, Handle(s, c)); }
      }
      RunKeeps(Handle(s, c), commands[1..]);
    }
  }

  /** Between two events about a device there is another one, or they say opposite things. */
  lemma {:induction false} Alternates(outbox: seq<Notice>, i: nat, j: nat)
    requires Told(outbox) && i < j < |outbox| && outbox[i].device == outbox[j].device
    requires forall k :: i < k < j ==> outbox[k].device != outbox[i].device
    ensures outbox[i].online == !outbox[j].online
  {
    LastSaidAt(outbox[..j], i);
  }

  lemma {:induction false} LastSaidAt(outbox: seq<Notice>, i: nat)
    requires i < |outbox| && forall k :: i < k < |outbox| ==> outbox[k].device != outbox[i].device
    ensures LastSaid(outbox, outbox[i].device) == outbox[i].online
    decreases |outbox|
  {
    if i + 1 < |outbox| { LastSaidAt(outbox[..|outbox| - 1], i); }
  }

  lemma {:induction false} NothingSaid(outbox: seq<Notice>, d: Device)
    requires forall k :: 0 <= k < |outbox| ==> outbox[k].device != d
    ensures !LastSaid(outbox, d)
    decreases |outbox|
  {
    if outbox != [] { NothingSaid(outbox[..|outbox| - 1], d); }
  }

  /**
   Presence conservation. After any run of presence commands, with duplicates and commands
   without an identity: a connection key exists iff its device is in the user's set; each
   device's events alternate, starting with online; every event carries its user's online
   minus offline events so far, and the set's size is that number now.
   */
  lemma {:induction false} PresenceConserved(commands: seq<Command>)
    ensures var s := Run(EMPTY, commands);
      && (forall d :: d in s.keys <==> Connected(s, d))
      && (forall u :: |DevicesOf(s, u)| == Balance(s.outbox, u))
      && (forall i | 0 <= i < |s.outbox| :: s.outbox[i].connectionCount
           == Balance(s.outbox[..i + 1], s.outbox[i].device.userId))
      && (forall i, j | 0 <= i < j < |s.outbox| && s.outbox[i].device == s.outbox[j].device
                        && (forall k :: i < k < j ==> s.outbox[k].device != s.outbox[i].device) ::
            s.outbox[i].online == !s.outbox[j].online)
      && (forall i | 0 <= i < |s.outbox| && (forall k :: 0 <= k < i ==> s.outbox[k].device != s.outbox[i].device) ::
            s.outbox[i].online)
  {
    RunKeeps(EMPTY, commands);
    var s := Run(EMPTY, commands);
    forall i, j | 0 <= i < j < |s.outbox| && s.outbox[i].device == s.outbox[j].device
                  && (forall k :: i < k < j ==> s.outbox[k].device != s.outbox[i].device)
      ensures s.outbox[i].online == !s.outbox[j].online
    {
      Alternates(s.outbox, i, j);
    }
    forall i | 0 <= i < |s.outbox| && (forall k :: 0 <= k < i ==> s.outbox[k].device != s.outbox[i].device)
      ensures s.outbox[i].online
    {
      NothingSaid(s.outbox[..i], s.outbox[i].device);
    }
  }

  // ---------- What the commands said ----------

  /** The command names a device. */
  predicate Names(c: Command, d: Device) {
    c.userId == Some(d.userId) && c.deviceId == Some(d.deviceId)
  }

  /** What the last command that named the device said: offline when none did. */
  function Said(commands: seq<Command>, d: Device): bool
    decreases |commands|
  {
    if commands == [] then false
    else
      var last := commands[|commands| - 1];
      if Names(last, d) then last.isOnline else Said(commands[..|commands| - 1], d)
  }

  lemma {:induction false} RunLast(s: State, commands: seq<Command>, c: Command)
    ensures Run(s, commands + [c]) == Handle(Run(s, commands), c)
    decreases |commands|
  {
    if commands == [] {
      assert Run(s, [c]) == Run(Handle(s, c), [c][1..]) == Handle(s, c);
      assert [] + [c] == [c];
    } else {
      assert (commands + [c])[1..] == commands[1..] + [c];
      RunLast(Handle(s, commands[0]), commands[1..], c);
    }
  }

  lemma {:induction false} RunFront(commands: seq<Command>)
    requires commands != []
    ensures var front, last := commands[..|commands| - 1], commands[|commands| - 1];
      Run(EMPTY, commands) == Handle(Run(EMPTY, front), last)
  {
    var front, last := commands[..|commands| - 1], commands[|commands| - 1];
    assert commands == front + [last];
    RunLast(EMPTY, front, last);
  }

  /**
   A device is connected if and only if the last command that named it said online; its key and its
   membership of the user's set agree.
   */
  lemma {:induction false} ConnectedExactly(commands: seq<Command>, d: Device)
    ensures Connected(Run(EMPTY, commands), d) <==> Said(commands, d)
    ensures d in Run(EMPTY, commands).keys <==> Said(commands, d)
    decreases |commands|
  {
    if commands != [] {
      RunFront(commands);
      ConnectedExactly(commands[..|commands| - 1], d);
    }
  }

  /** The command turns what was last said about the device it names. */
  predicate Turns(before: seq<Command>, c: Command) {
    c.userId.Some? && c.deviceId.Some? && Said(before, Device(c.userId.value, c.deviceId.value)) != c.isOnline
  }

  /** The user's devices about which the last word is online. */
  ghost predicate OnlineDevices(commands: seq<Command>, u: UserId, devices: set<DeviceId>) {
    forall v :: v in devices <==> Said(commands, Device(u, v))
  }

  /**
   A command emits an event exactly when it turns what the device's previous command said. The event
   says what the command said, about that device, and counts the user's devices that are online then.
   */
  lemma {:induction false} EmitsExactly(before: seq<Command>, c: Command, devices: set<DeviceId>)
    requires c.userId.Some? ==> OnlineDevices(before + [c], c.userId.value, devices)
    ensures var s, t := Run(EMPTY, before), Run(EMPTY, before + [c]);
      t.outbox == s.outbox + if Turns(before, c)
                             then [Notice(c.isOnline, Device(c.userId.value, c.deviceId.value), |devices|)] else []
  {
    RunLast(EMPTY, before, c);
    var s, t := Run(EMPTY, before), Run(EMPTY, before + [c]);
    if c.userId.Some? && c.deviceId.Some? {
      var d := Device(c.userId.value, c.deviceId.value);
      ConnectedExactly(before, d);
      forall v ensures v in DevicesOf(t, d.userId) <==> v in devices {
        ConnectedExactly(before + [c], Device(d.userId, v));
      }
      assert DevicesOf(t, d.userId) == devices;
    }
  }

  predicate EmptiedBy(c: Command, u: UserId, t: State) {
    c.userId == Some(u) && c.deviceId.Some? && !c.isOnline && DevicesOf(t, u) == {}
  }

  lemma LastSeenStep(s: State, c: Command, u: UserId)
    ensures u in Handle(s, c).lastSeen <==> u in s.lastSeen || EmptiedBy(c, u, Handle(s, c))
  {
  }

  /** Command i is an offline command of the user and leaves none of their devices online. */
  ghost predicate Empties(commands: seq<Command>, i: nat, u: UserId)
    requires i < |commands|
  {
    && commands[i].userId == Some(u) && commands[i].deviceId.Some? && !commands[i].isOnline
    && forall v :: !Said(commands[..i + 1], Device(u, v))
  }

  lemma {:induction false} LastEmpties(commands: seq<Command>, u: UserId)
    requires commands != []
    ensures var n := |commands| - 1; Empties(commands, n, u) <==> EmptiedBy(commands[n], u, Run(EMPTY, commands))
  {
    assert commands[..|commands|] == commands;
    forall v ensures v in DevicesOf(Run(EMPTY, commands), u) <==> Said(commands, Device(u, v)) {
      ConnectedExactly(commands, Device(u, v));
    }
  }

  /** A last-seen time is there exactly once an offline command has left none of the user's devices online. */
  lemma {:induction false} LastSeenExactly(commands: seq<Command>, u: UserId)
    ensures u in Run(EMPTY, commands).lastSeen <==> exists i :: 0 <= i < |commands| && Empties(commands, i, u)
    decreases |commands|
  {
    if commands != [] {
      var n := |commands| - 1;
      var front := commands[..n];
      RunFront(commands);
      LastSeenStep(Run(EMPTY, front), commands[n], u);
      LastEmpties(commands, u);
      LastSeenExactly(front, u);
      forall i | 0 <= i < n ensures Empties(commands, i, u) <==> Empties(front, i, u) {
        assert commands[..i + 1] == front[..i + 1];
      }
    }
  }
}
