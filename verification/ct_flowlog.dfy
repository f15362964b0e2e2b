/** What the tracker reads off a flow log, in the terms of the configuration. */
module ConnTrackFlowLogs {
  import opened Common
  import opened ConnTrackConfig
  import opened ConnTrackHash
  import opened ConnTrackConn
  import opened ConnTrackSpec

  /** The number in the flags field, if there is one. */
  function Flags(t: Tracker, fl: GenericMap): Option<bv32> {
    if t.cfg.tcpFlags.fieldName in fl then t.lib.toUint32(fl[t.cfg.tcpFlags.fieldName]) else None
  }

  /** Bit 0 of the flags: FIN. */
  predicate HasFin(t: Tracker, fl: GenericMap) { Flags(t, fl).Some? && Flags(t, fl).value % 2 == 1 }

  /** Bit 8 of the flags: SYN and ACK in one packet. */
  predicate HasSynAck(t: Tracker, fl: GenericMap) { Flags(t, fl).Some? && (Flags(t, fl).value / 256) % 2 == 1 }

  /** The protocol field holds the number of TCP, UDP or SCTP. */
  predicate IsTransport(t: Tracker, fl: GenericMap) {
    t.cfg.protoFieldName in fl && t.lib.toFloat(fl[t.cfg.protoFieldName]) in {Some(6.0), Some(17.0), Some(132.0)}
  }

  predicate IsMarkedDuplicate(t: Tracker, fl: GenericMap) {
    t.cfg.duplicateFieldName in fl && t.lib.toBool(fl[t.cfg.duplicateFieldName]) == Some(true)
  }

  /** Of a transport protocol, not marked as a duplicate, and hashed to h. */
  predicate Belongs(t: Tracker, fl: GenericMap, h: Hash) {
    && IsTransport(t, fl)
    && !IsMarkedDuplicate(t, fl)
    && HashesTo(t, fl, h)
  }

  predicate HashesTo(t: Tracker, fl: GenericMap, h: Hash) {
    TotalHashOf(t.lib, t.cfg, fl).Some? && TotalHashOf(t.lib, t.cfg, fl).value.hashTotal == h
  }

  lemma LowBit(flags: bv32)
    ensures flags & 0x01 == 0x01 <==> flags % 2 == 1
  {
  }

  lemma NinthBit(flags: bv32)
    ensures flags & 0x100 == 0x100 <==> (flags / 256) % 2 == 1
  {
  }

  lemma FlagsAgree(t: Tracker, fl: GenericMap)
    ensures t.EndsConnection(fl) <==> t.cfg.tcpFlags.detectEndConnection && HasFin(t, fl)
    ensures t.SwapsEndpoints(fl) <==> t.cfg.tcpFlags.swapAB && HasSynAck(t, fl)
  {
    if Flags(t, fl).Some? {
      LowBit(Flags(t, fl).value);
      NinthBit(Flags(t, fl).value);
    }
  }

  /** A flow log that the tracker takes: one that belongs to a tracked connection, or opens one while there is room. */
  predicate Accepted(t: Tracker, s: State, fl: GenericMap) {
    var th := TotalHashOf(t.lib, t.cfg, fl);
    && IsTransport(t, fl) && !IsMarkedDuplicate(t, fl) && th.Some?
    && (th.value.hashTotal in s || t.cfg.maxConnectionsTracked <= 0 || |s| < t.cfg.maxConnectionsTracked)
  }

  /** The record type is configured. */
  predicate Enabled(t: Tracker, kind: Kind) {
    match kind
    case FlowLog => "flowLog" in t.cfg.outputRecordTypes
    case NewConnection => "newConnection" in t.cfg.outputRecordTypes
    case EndConnection => "endConnection" in t.cfg.outputRecordTypes
    case Heartbeat => "heartbeat" in t.cfg.outputRecordTypes
  }

  /** The scheduling group is the first whose selector matches the keys. */
  predicate IsFirstGroup(t: Tracker, keys: GenericMap, g: nat) {
    && g < |t.cfg.scheduling| && SelectorMatches(t.lib, keys, t.cfg.scheduling[g].selector)
    && forall j :: 0 <= j < g ==> !SelectorMatches(t.lib, keys, t.cfg.scheduling[j].selector)
  }

  lemma {:induction false} FirstMatchIsFirst(t: Tracker, keys: GenericMap, from: nat)
    requires t.Valid() && from < |t.cfg.scheduling|
    requires forall j :: 0 <= j < from ==> !SelectorMatches(t.lib, keys, t.cfg.scheduling[j].selector)
    ensures IsFirstGroup(t, keys, t.FirstMatch(keys, from))
    decreases |t.cfg.scheduling| - from
  {
    if !SelectorMatches(t.lib, keys, t.cfg.scheduling[from].selector) {
      FirstMatchIsFirst(t, keys, from + 1);
    }
  }

  lemma TransportOnly(t: Tracker, s: State, fl: GenericMap)
    ensures t.Filtered(fl) <==> !IsTransport(t, fl)
    ensures t.IsDuplicate(fl) <==> IsMarkedDuplicate(t, fl)
    ensures t.Full(s) <==> t.cfg.maxConnectionsTracked > 0 && |s| >= t.cfg.maxConnectionsTracked
  {
  }
}
