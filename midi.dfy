/** The MIDI transport wrapper: inbound button messages, the output device that
    frames and sends messages, the input device with its two queues and its
    callback list, and the case-insensitive port-name search. The rtmidi library
    itself is not modelled: a port list is a sequence of names and an output
    port is the log of messages handed to it. */
module Midi {
  import opened Wrappers
  import opened Enums
  import opened Errors

  datatype State = Off | On

  /** An inbound button message; its state is fixed when it is built. */
  datatype MidiMessage = MidiMessage(n: int, intensity: int := 0, diff: real := 0.0) {
    function State(): (s: State)
      ensures s == On <==> intensity == 127
    {
      if intensity == 127 then On else Off
    }

    predicate IsOn() {
      State() == On
    }

    predicate IsOff() {
      State() == Off
    }
  }

  /** Exactly one of `on` and `off` holds, and `on` means full intensity. */
  lemma OnOffComplementary(m: MidiMessage)
    ensures m.IsOn() != m.IsOff()
    ensures m.IsOn() <==> m.intensity == 127
  {
  }

  /** One message on the wire: a three-byte channel message or a system-exclusive
      block given by its payload. */
  datatype WireMsg = Short(status: int, d1: int, d2: int) | Sysex(payload: seq<int>)

  const SysexStart := 0xF0
  const SysexEnd := 0xF7

  /** The bytes handed to the port: `send` passes the three bytes as they are,
      `send_sysex` adds the start and end markers around the payload. */
  function Bytes(m: WireMsg): (b: seq<int>)
    ensures m.Short? ==> |b| == 3 && b[0] == m.status && b[1] == m.d1 && b[2] == m.d2
    ensures m.Sysex? ==> |b| == |m.payload| + 2 && b[0] == SysexStart && b[|b| - 1] == SysexEnd
    ensures m.Sysex? ==> b[1..|b| - 1] == m.payload
  {
    match m
    case Short(status, d1, d2) => [status, d1, d2]
    case Sysex(payload) => [SysexStart] + payload + [SysexEnd]
  }

  /** Strip the markers of a system-exclusive block. */
  function Unframe(b: seq<int>): Option<seq<int>> {
    if |b| >= 2 && b[0] == SysexStart && b[|b| - 1] == SysexEnd then Some(b[1..|b| - 1]) else None
  }

  /** Framing is exactly start marker, payload, end marker: unframing gives the payload back. */
  lemma SysexRoundTrip(payload: seq<int>)
    ensures Unframe(Bytes(Sysex(payload))) == Some(payload)
  {
  }

  /** Appending to a message log does not depend on how the appended parts are grouped. */
  lemma AppendAssoc<T>(a: seq<T>, b: seq<T>, c: seq<T>)
    ensures (a + b) + c == a + (b + c)
  {
  }

  lemma AppendNil<T>(s: seq<T>)
    ensures s + [] == s
  {
  }

  lemma TakeSnoc<T>(s: seq<T>, i: nat)
    requires i < |s|
    ensures s[..i + 1] == s[..i] + [s[i]]
  {
  }

  lemma AppendDropLast<T>(a: seq<T>, b: seq<T>)
    requires b != []
    ensures (a + b)[..|a + b| - 1] == a + b[..|b| - 1] && (a + b)[|a + b| - 1] == b[|b| - 1]
  {
  }

  lemma DropLast<T>(s: seq<T>, x: T)
    ensures |s + [x]| == |s| + 1 && (s + [x])[..|s|] == s && (s + [x])[|s|] == x
  {
  }

  /** The status codes the input side keeps: note-on and control-change. */
  predicate IsButtonStatus(code: int) {
    code == 144 || code == 176
  }

  /** A callback registered on an input device, identified by a name of its own. */
  type CallbackId = nat

  predicate NoDuplicates<T(==)>(s: seq<T>) {
    forall i, j :: 0 <= i < j < |s| ==> s[i] != s[j]
  }

  /** `list.remove(x)`: drop the first occurrence of `x`. */
  function RemoveFirst<T(==)>(s: seq<T>, x: T): seq<T> {
    if s == [] then []
    else if s[0] == x then s[1..]
    else [s[0]] + RemoveFirst(s[1..], x)
  }

  /** Removing takes away one occurrence of `x`, when there is one, and nothing else. */
  lemma {:induction false} RemoveFirstMultiset<T>(s: seq<T>, x: T)
    ensures multiset(RemoveFirst(s, x)) == multiset(s) - multiset{x}
    ensures x !in s ==> RemoveFirst(s, x) == s
  {
    if s != [] {
      assert s == [s[0]] + s[1..];
      if s[0] != x {
        RemoveFirstMultiset(s[1..], x);
      }
    }
  }

  /** Removing from a duplicate-free list leaves no occurrence of the element and
      keeps the list duplicate-free. */
  lemma {:induction false} RemoveFirstNoDuplicates<T>(s: seq<T>, x: T)
    requires NoDuplicates(s)
    ensures NoDuplicates(RemoveFirst(s, x))
    ensures x !in RemoveFirst(s, x)
  {
    if s != [] {
      var t := s[1..];
      assert NoDuplicates(t) by {
        forall i, j | 0 <= i < j < |t| ensures t[i] != t[j] {
          assert t[i] == s[i + 1] && t[j] == s[j + 1];
        }
      }
      if s[0] == x {
        assert x !in t by {
          forall k | 0 <= k < |t| ensures t[k] != x {
            assert t[k] == s[k + 1];
          }
        }
      } else {
        RemoveFirstNoDuplicates(t, x);
        RemoveFirstMultiset(t, x);
        var r := RemoveFirst(t, x);
        assert s[0] !in t by {
          forall k | 0 <= k < |t| ensures t[k] != s[0] {
            assert t[k] == s[k + 1];
          }
        }
        assert s[0] !in multiset(r);
        forall i, j | 0 <= i < j < |[s[0]] + r| ensures ([s[0]] + r)[i] != ([s[0]] + r)[j] {
          assert ([s[0]] + r)[j] == r[j - 1];
          if i > 0 {
            assert ([s[0]] + r)[i] == r[i - 1];
          }
        }
      }
    }
  }

  /** The opened output port: `sent` is every message handed to rtmidi, in order. */
  class OutputDevice {
    var port: Option<nat>
    var sent: seq<WireMsg>

    constructor(p: nat)
      ensures port == Some(p) && sent == []
    {
      port := Some(p);
      sent := [];
    }

    predicate IsOpen()
      reads this
    {
      port.Some?
    }

    /** `send(stat, dat1, dat2)`. */
    method Send(stat: int, dat1: int, dat2: int)
      requires IsOpen()
      modifies this
      ensures port == old(port) && sent == old(sent) + [Short(stat, dat1, dat2)]
    {
      sent := sent + [Short(stat, dat1, dat2)];
    }

    /** `send_sysex(payload)`: the markers are added by `Bytes`. */
    method SendSysex(payload: seq<int>)
      requires IsOpen()
      modifies this
      ensures port == old(port) && sent == old(sent) + [Sysex(payload)]
    {
      sent := sent + [Sysex(payload)];
    }

    method Close()
      requires IsOpen()
      modifies this
      ensures port == None && sent == old(sent)
    {
      port := None;
    }
  }

  /** The opened input port with its two queues (one read by `read`, one drained
      by the delivery worker) and its duplicate-free list of callbacks. */
  class InputDevice {
    var port: Option<nat>
    var messageQueue: seq<MidiMessage>
    var callbackQueue: seq<MidiMessage>
    var callbacks: seq<CallbackId>

    ghost predicate Valid()
      reads this
    {
      NoDuplicates(callbacks)
    }

    constructor(p: nat)
      ensures Valid() && port == Some(p)
      ensures messageQueue == [] && callbackQueue == [] && callbacks == []
    {
      port := Some(p);
      messageQueue := [];
      callbackQueue := [];
      callbacks := [];
    }

    predicate IsOpen()
      reads this
    {
      port.Some?
    }

    /** The rtmidi callback: a note-on or control-change message goes into both
        queues; every other status is dropped. */
    method Receive(code: int, n: int, intensity: int, diff: real)
      modifies this
      ensures port == old(port) && callbacks == old(callbacks)
      ensures IsButtonStatus(code) ==> messageQueue == old(messageQueue) + [MidiMessage(n, intensity, diff)]
      ensures IsButtonStatus(code) ==> callbackQueue == old(callbackQueue) + [MidiMessage(n, intensity, diff)]
      ensures !IsButtonStatus(code) ==> messageQueue == old(messageQueue) && callbackQueue == old(callbackQueue)
    {
      if IsButtonStatus(code) {
        var msg := MidiMessage(n, intensity, diff);
        messageQueue := messageQueue + [msg];
        callbackQueue := callbackQueue + [msg];
      }
    }

    /** `read()`: the oldest queued message, removed from the queue; None when empty. */
    method Read() returns (m: Option<MidiMessage>)
      modifies this
      ensures port == old(port) && callbacks == old(callbacks) && callbackQueue == old(callbackQueue)
      ensures old(messageQueue) == [] ==> m == None && messageQueue == []
      ensures old(messageQueue) != [] ==> m == Some(old(messageQueue)[0]) && messageQueue == old(messageQueue)[1..]
    {
      if messageQueue == [] {
        m := None;
      } else {
        m := Some(messageQueue[0]);
        messageQueue := messageQueue[1..];
      }
    }

    /** `flush()`: both queues end up empty. */
    method Flush()
      modifies this
      ensures port == old(port) && callbacks == old(callbacks)
      ensures messageQueue == [] && callbackQueue == []
    {
      messageQueue := [];
      callbackQueue := [];
    }

    /** `set_callback(cb)`: appended only if not yet registered. */
    method SetCallback(cb: CallbackId)
      requires Valid()
      modifies this
      ensures Valid()
      ensures port == old(port) && messageQueue == old(messageQueue) && callbackQueue == old(callbackQueue)
      ensures cb in callbacks
      ensures callbacks == if cb in old(callbacks) then old(callbacks) else old(callbacks) + [cb]
    {
      if cb !in callbacks {
        callbacks := callbacks + [cb];
      }
    }

    /** `remove_callback(cb)`: removes a registered callback, changes nothing otherwise. */
    method RemoveCallback(cb: CallbackId)
      requires Valid()
      modifies this
      ensures Valid()
      ensures port == old(port) && messageQueue == old(messageQueue) && callbackQueue == old(callbackQueue)
      ensures cb !in callbacks
      ensures callbacks == RemoveFirst(old(callbacks), cb)
      ensures multiset(callbacks) == multiset(old(callbacks)) - multiset{cb}
    {
      RemoveFirstMultiset(callbacks, cb);
      RemoveFirstNoDuplicates(callbacks, cb);
      if cb in callbacks {
        callbacks := RemoveFirst(callbacks, cb);
      }
    }

    /** `close()`: the delivery worker is told to stop and the port is released. */
    method Close()
      requires IsOpen()
      modifies this
      ensures port == None
      ensures messageQueue == old(messageQueue) && callbackQueue == old(callbackQueue)
      ensures callbacks == old(callbacks)
    {
      port := None;
    }
  }

  /** Two button messages received in turn are read back in the same order,
      and a message with another status never reaches the queue. */
  method ReadIsFifo(first: MidiMessage, second: MidiMessage, otherStatus: int)
    returns (r1: Option<MidiMessage>, r2: Option<MidiMessage>, r3: Option<MidiMessage>)
    requires !IsButtonStatus(otherStatus)
    ensures r1 == Some(first) && r2 == Some(second) && r3 == None
  {
    var dev := new InputDevice(0);
    dev.Receive(144, first.n, first.intensity, first.diff);
    dev.Receive(otherStatus, 0, 0, 0.0);
    dev.Receive(176, second.n, second.intensity, second.diff);
    r1 := dev.Read();
    r2 := dev.Read();
    r3 := dev.Read();
  }

  /** ASCII lower-casing, as `str.lower()` does for ASCII letters. */
  function LowerChar(c: char): char {
    if 'A' <= c <= 'Z' then (c as int + 32) as char else c
  }

  function Lower(s: string): (r: string)
    ensures |r| == |s|
    ensures forall i :: 0 <= i < |s| ==> r[i] == LowerChar(s[i])
  {
    seq(|s|, i requires 0 <= i < |s| => LowerChar(s[i]))
  }

  /** `needle` occurs in `hay` (`hay.find(needle) != -1`). */
  predicate Contains(hay: string, needle: string) {
    exists i | 0 <= i <= |hay| - |needle| :: OccursAt(hay, needle, i)
  }

  predicate OccursAt(hay: string, needle: string, i: int) {
    0 <= i <= |hay| - |needle| && hay[i..i + |needle|] == needle
  }

  /** A port name matches a device name when it contains it, ignoring case. */
  predicate Matches(port: string, name: string) {
    Contains(Lower(port), Lower(name))
  }

  lemma LowerIdempotent(s: string)
    ensures Lower(Lower(s)) == Lower(s)
  {
  }

  /** Matching ignores case on both sides. */
  lemma MatchIsCaseInsensitive(port: string, name: string)
    ensures Matches(Lower(port), name) == Matches(port, name)
    ensures Matches(port, Lower(name)) == Matches(port, name)
  {
    LowerIdempotent(port);
    LowerIdempotent(name);
  }

  /** `Midi.search_for_device`: true iff some port name contains `name`, ignoring case. */
  method SearchForDevice(name: string, ports: seq<string>) returns (found: bool)
    ensures found <==> exists i :: 0 <= i < |ports| && Matches(ports[i], name)
  {
    var i := 0;
    while i < |ports|
      invariant 0 <= i <= |ports|
      invariant forall k :: 0 <= k < i ==> !Matches(ports[k], name)
    {
      if Matches(ports[i], name) {
        return true;
      }
      i := i + 1;
    }
    return false;
  }

  /** The number of ports whose name matches. */
  function CountMatches(ports: seq<string>, name: string): (c: nat)
    ensures c <= |ports|
  {
    if ports == [] then 0
    else CountMatches(ports[..|ports| - 1], name) + (if Matches(ports[|ports| - 1], name) then 1 else 0)
  }

  lemma {:induction false} CountMatchesMonotone(ports: seq<string>, name: string, i: nat, j: nat)
    requires i <= j <= |ports|
    ensures CountMatches(ports[..i], name) <= CountMatches(ports[..j], name)
  {
    if i < j {
      CountMatchesMonotone(ports, name, i, j - 1);
      assert ports[..j][..j - 1] == ports[..j - 1];
    }
  }

  /** At most one port is the `no`-th match: the port `open_device` picks is unique. */
  lemma NthMatchUnique(ports: seq<string>, name: string, i: nat, j: nat)
    requires i < |ports| && j < |ports|
    requires Matches(ports[i], name) && Matches(ports[j], name)
    requires CountMatches(ports[..i], name) == CountMatches(ports[..j], name)
    ensures i == j
  {
    if i < j {
      assert ports[..i + 1][..i] == ports[..i];
      CountMatchesMonotone(ports, name, i + 1, j);
    } else if j < i {
      assert ports[..j + 1][..j] == ports[..j];
      CountMatchesMonotone(ports, name, j + 1, i);
    }
  }

  /** The error `open_device` raises for a direction. */
  function NotFoundError(direction: Direction, name: string): (e: LaunchpadError)
    ensures e.DeviceNotFound? && e.Code() == DeviceNotFoundCode && e.direction == Some(direction) && e.name == name
  {
    match direction
    case Input => NewInputDeviceNotFound(name)
    case Output => NewOutputDeviceNotFound(name)
  }

  /** `Midi.open_device`: with no configured name, nothing is opened; otherwise the
      port to open is the `no`-th (0-based) whose name contains `name`, ignoring
      case, and the direction's not-found error is raised when there is none. The
      result is the index of that port among `ports`. */
  method OpenDevice(name: Option<(string, int)>, direction: Direction, ports: seq<string>)
    returns (r: Result<Option<nat>, LaunchpadError>)
    ensures name.None? ==> r == Ok(None)
    ensures name.Some? ==> (r.Ok? <==> 0 <= name.value.1 < CountMatches(ports, name.value.0))
    ensures name.Some? && r.Ok? ==>
      && r.value.Some? && r.value.value < |ports|
      && Matches(ports[r.value.value], name.value.0)
      && CountMatches(ports[..r.value.value], name.value.0) == name.value.1
    ensures name.Some? && r.Err? ==> r.error == NotFoundError(direction, name.value.0)
  {
    if name.None? {
      return Ok(None);
    }
    var (pattern, no) := name.value;
    var found := -1;
    var i := 0;
    while i < |ports|
      invariant 0 <= i <= |ports|
      invariant found == CountMatches(ports[..i], pattern) - 1
      invariant no < 0 || found < no
    {
      assert ports[..i + 1][..i] == ports[..i];
      if Matches(ports[i], pattern) {
        found := found + 1;
        if found == no {
          CountMatchesMonotone(ports, pattern, i + 1, |ports|);
          assert ports[..|ports|] == ports;
          return Ok(Some(i));
        }
      }
      i := i + 1;
    }
    assert ports[..i] == ports;
    return Err(NotFoundError(direction, pattern));
  }
}
