/** MockEndpoint: the map-backed endpoint the transfer tests give a transfer
    as its source and destination. Every PDU is addressed by an endpoint key
    (robot name, PDU name), stored under the string `robot + "." + pdu`.
    The endpoint keeps three maps: the data it offers for reading, the last
    data sent to each key and the number of sends per key. */
module MockEndpoints {
  import opened Machine

  /** `hakoniwa::pdu::PduKey`. */
  datatype EndpointKey = EndpointKey(robot: string, pdu: string)

  /** The error code of the endpoint calls; the mock never fails. */
  datatype PduError = PduOk | PduFailure

  /** `make_key`: the key reads back as the robot name, the separator
      right after it, then the PDU name. */
  function MakeKey(k: EndpointKey): (s: string)
    ensures |s| == |k.robot| + 1 + |k.pdu|
    ensures s[..|k.robot|] == k.robot && s[|k.robot|] == '.' && s[|k.robot| + 1..] == k.pdu
  {
    k.robot + "." + k.pdu
  }

  predicate NoDot(s: string) {
    forall i :: 0 <= i < |s| ==> s[i] != '.'
  }

  /** Two keys share a map entry only if they are equal, provided robot names
      have no '.' in them. */
  lemma MakeKeyInjective(a: EndpointKey, b: EndpointKey)
    requires NoDot(a.robot) && NoDot(b.robot)
    requires MakeKey(a) == MakeKey(b)
    ensures a == b
  {
    assert |a.robot| == |b.robot|;
  }

  /** Without that proviso two different keys can collide. */
  lemma MakeKeyCollides()
    ensures MakeKey(EndpointKey("a.b", "c")) == MakeKey(EndpointKey("a", "b.c"))
    ensures EndpointKey("a.b", "c") != EndpointKey("a", "b.c")
  {
    assert MakeKey(EndpointKey("a.b", "c")) == "a.b.c";
    assert MakeKey(EndpointKey("a", "b.c")) == "a.b.c";
  }

  datatype EndpointState = EndpointState(
    pduData: map<string, seq<byte>>,
    lastSent: map<string, seq<byte>>,
    sendCounts: map<string, nat>)
  {
    /** The data offered for reading under `k`, empty when there is none. */
    function Stored(k: EndpointKey): seq<byte> {
      if MakeKey(k) in pduData then pduData[MakeKey(k)] else []
    }

    /** `get_pdu_size`. */
    function PduSize(k: EndpointKey): (n: nat)
      ensures n == |Stored(k)|
      ensures MakeKey(k) !in pduData ==> n == 0
    {
      if MakeKey(k) in pduData then |pduData[MakeKey(k)]| else 0
    }

    /** The `received_size` of `recv` into a buffer of `capacity` bytes. */
    function ReceivedSize(k: EndpointKey, capacity: nat): (n: nat)
      ensures n <= capacity && n <= PduSize(k)
      ensures MakeKey(k) !in pduData ==> n == 0
    {
      if MakeKey(k) in pduData then Min(capacity, |pduData[MakeKey(k)]|) else 0
    }

    /** The caller's buffer after `recv`: its first `received_size` bytes
        replaced by the front of the stored data. */
    function Received(k: EndpointKey, buffer: seq<byte>): seq<byte> {
      var n := ReceivedSize(k, |buffer|);
      Stored(k)[..n] + buffer[n..]
    }

    /** `send_count`. */
    function SendCount(k: EndpointKey): nat {
      if MakeKey(k) in sendCounts then sendCounts[MakeKey(k)] else 0
    }

    /** `last_sent_data`. */
    function LastSentData(k: EndpointKey): seq<byte> {
      if MakeKey(k) in lastSent then lastSent[MakeKey(k)] else []
    }

    /** The state after `send(k, data)`. */
    function Sent(k: EndpointKey, data: seq<byte>): EndpointState {
      EndpointState(pduData, lastSent[MakeKey(k) := data], sendCounts[MakeKey(k) := SendCount(k) + 1])
    }
  }

  const Empty: EndpointState := EndpointState(map[], map[], map[])

  /** A fresh endpoint has sent nothing and offers nothing. */
  lemma EmptyHasNothing(k: EndpointKey)
    ensures Empty.PduSize(k) == 0 && Empty.SendCount(k) == 0 && Empty.LastSentData(k) == []
  {
  }

  /** `recv` into a buffer as large as the stored PDU fills it with exactly
      the stored data; a key with no data leaves the buffer as it was; in
      every case only the front of the buffer changes. */
  lemma RecvCopiesStoredPrefix(s: EndpointState, k: EndpointKey, buffer: seq<byte>)
    ensures |s.Received(k, buffer)| == |buffer|
    ensures s.Received(k, buffer)[..s.ReceivedSize(k, |buffer|)] == s.Stored(k)[..s.ReceivedSize(k, |buffer|)]
    ensures |buffer| == s.PduSize(k) ==> s.Received(k, buffer) == s.Stored(k)
    ensures MakeKey(k) !in s.pduData ==> s.Received(k, buffer) == buffer
  {
    var n := s.ReceivedSize(k, |buffer|);
    assert s.Received(k, buffer)[..n] == s.Stored(k)[..n];
    if |buffer| == s.PduSize(k) {
      assert n == |s.Stored(k)|;
      assert buffer[n..] == [];
    }
  }

  /** A send adds exactly one to the count of the key sent (and of any key
      stored under the same string), records the data, and leaves the
      readable data and every other key's history alone. */
  lemma SendEffect(s: EndpointState, k: EndpointKey, data: seq<byte>, other: EndpointKey)
    ensures s.Sent(k, data).SendCount(k) == s.SendCount(k) + 1
    ensures s.Sent(k, data).LastSentData(k) == data
    ensures s.Sent(k, data).pduData == s.pduData
    ensures MakeKey(other) != MakeKey(k) ==>
              s.Sent(k, data).SendCount(other) == s.SendCount(other)
              && s.Sent(k, data).LastSentData(other) == s.LastSentData(other)
  {
  }

  class MockEndpoint {
    const name: string
    var pduData: map<string, seq<byte>>
    var lastSent: map<string, seq<byte>>
    var sendCounts: map<string, nat>

    function State(): EndpointState
      reads this
    {
      EndpointState(pduData, lastSent, sendCounts)
    }

    /** `MockEndpoint(name)`. */
    constructor(name: string)
      ensures this.name == name && State() == Empty
    {
      this.name := name;
      pduData := map[];
      lastSent := map[];
      sendCounts := map[];
    }

    /** `get_name`. */
    function GetName(): string {
      name
    }

    /** `set_pdu_data`: replaces the data of exactly that key. */
    method SetPduData(key: EndpointKey, data: seq<byte>)
      modifies this
      ensures State() == old(State()).(pduData := old(pduData)[MakeKey(key) := data])
    {
      pduData := pduData[MakeKey(key) := data];
    }

    /** `get_pdu_size`: the stored length, 0 for an unknown key. */
    method GetPduSize(key: EndpointKey) returns (n: nat)
      ensures n == State().PduSize(key)
    {
      var mapKey := MakeKey(key);
      if mapKey !in pduData {
        return 0;
      }
      n := |pduData[mapKey]|;
    }

    /** `recv`: copies min(buffer size, stored size) bytes from the front of
        the stored data into the buffer and reports how many. */
    method Recv(key: EndpointKey, buffer: array<byte>) returns (err: PduError, received: nat)
      modifies buffer
      ensures err == PduOk
      ensures received == State().ReceivedSize(key, buffer.Length)
      ensures buffer[..] == State().Received(key, old(buffer[..]))
    {
      var mapKey := MakeKey(key);
      if mapKey !in pduData {
        received := 0;
        return PduOk, received;
      }
      var data := pduData[mapKey];
      received := Min(buffer.Length, |data|);
      for i := 0 to received
        invariant buffer[..i] == data[..i]
        invariant buffer[i..] == old(buffer[..])[i..]
      {
        buffer[i] := data[i];
        assert buffer[..i + 1] == buffer[..i] + [data[i]];
      }
      assert buffer[..] == buffer[..received] + buffer[received..];
      err := PduOk;
    }

    /** `send`: records the data and counts the send. */
    method Send(key: EndpointKey, buffer: seq<byte>) returns (err: PduError)
      modifies this
      ensures err == PduOk
      ensures State() == old(State()).Sent(key, buffer)
    {
      var mapKey := MakeKey(key);
      lastSent := lastSent[mapKey := buffer];
      var count := if mapKey in sendCounts then sendCounts[mapKey] else 0;
      sendCounts := sendCounts[mapKey := count + 1];
      err := PduOk;
    }

    /** `send_count`: 0 for a key never sent. */
    method SendCount(key: EndpointKey) returns (n: nat)
      ensures n == State().SendCount(key)
    {
      var mapKey := MakeKey(key);
      if mapKey !in sendCounts {
        return 0;
      }
      n := sendCounts[mapKey];
    }

    /** `last_sent_data`: empty for a key never sent. */
    method LastSentData(key: EndpointKey) returns (d: seq<byte>)
      ensures d == State().LastSentData(key)
    {
      var mapKey := MakeKey(key);
      if mapKey !in lastSent {
        return [];
      }
      d := lastSent[mapKey];
    }
  }
}
