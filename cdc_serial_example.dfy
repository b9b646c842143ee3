/** The CDC serial example (Examples/CDC_Examples/CDC_Serial_Example.X/main.c):
    a NUL-terminated string is cut into DATA IN packets of at most the data
    endpoint size, and the loop-back echo returns each received packet.

    The example's two volatile flags are fields of class SerialApp. The busy
    waits that follow `send` and precede `receive`'s work are not modelled:
    `send` is the moment the packet is armed, and each armed packet is
    recorded in `packets`, the bytes the host will read. */
module CdcSerialExample {
  import opened Usb
  import opened CString
  import opened UsbCdcAcm

  // ---------------------------------------------------------------------------
  // Packetisation, as a function of the text
  // ---------------------------------------------------------------------------

  /** The packets a text of bytes is sent in: full packets of `n` bytes, then
      whatever is left, if anything. */
  function Packets(t: seq<Byte>, n: nat): (ps: seq<seq<Byte>>)
    requires 0 < n
    ensures ps == [] <==> t == []
    decreases |t|
  {
    if |t| == 0 then []
    else if |t| <= n then [t]
    else [t[..n]] + Packets(t[n..], n)
  }

  /** Concatenation of a list of packets. */
  function Flatten(ps: seq<seq<Byte>>): seq<Byte>
  {
    if ps == [] then [] else ps[0] + Flatten(ps[1..])
  }

  /** The DATA IN arm calls that send the packets `ps`, in order. */
  function ArmsFor(ps: seq<seq<Byte>>): (acts: seq<Action>)
    ensures |acts| == |ps|
    ensures forall j :: 0 <= j < |ps| ==> acts[j] == ArmEndpoint(DatIn, |ps[j]|)
  {
    if ps == [] then [] else ArmsFor(ps[..|ps| - 1]) + [ArmEndpoint(DatIn, |ps[|ps| - 1]|)]
  }

  /** Nothing is lost or reordered: the packets, put back together, are the text. */
  lemma {:induction false} PacketsConcat(t: seq<Byte>, n: nat)
    requires 0 < n
    ensures Flatten(Packets(t, n)) == t
    decreases |t|
  {
    if |t| == 0 {
    } else if |t| <= n {
      assert Flatten([t]) == t + Flatten([]);
    } else {
      var ps := Packets(t[n..], n);
      PacketsConcat(t[n..], n);
      assert ([t[..n]] + ps)[1..] == ps;
      assert t[..n] + t[n..] == t;
    }
  }

  /** Every packet but the last is full; the last holds 1 to `n` bytes; no
      packet is empty. */
  lemma {:induction false} PacketsSizes(t: seq<Byte>, n: nat)
    requires 0 < n
    ensures forall j :: 0 <= j < |Packets(t, n)| - 1 ==> |Packets(t, n)[j]| == n
    ensures forall j :: 0 <= j < |Packets(t, n)| ==> 0 < |Packets(t, n)[j]| <= n
    decreases |t|
  {
    if |t| > n {
      PacketsSizes(t[n..], n);
    }
  }

  /** The number of packets is the length of the text divided by `n`, rounded up. */
  lemma {:induction false} PacketsCount(t: seq<Byte>, n: nat)
    requires 0 < n
    ensures |Packets(t, n)| == (|t| + n - 1) / n
    decreases |t|
  {
    if |t| == 0 {
      DivSmall(n - 1, n);
    } else if |t| <= n {
      DivSmall(|t| - 1, n);
      DivAddOne(|t| - 1, n);
    } else {
      PacketsCount(t[n..], n);
      DivAddOne(|t| - 1, n);
    }
  }

  /** Division fact for the one-packet cases of PacketsCount. */
  lemma DivSmall(x: nat, n: nat)
    requires x < n
    ensures x / n == 0
  {
  }

  lemma DivAddOne(x: nat, n: nat)
    requires 0 < n
    ensures (x + n) / n == x / n + 1
  {
    var q, r := x / n, x % n;
    assert x == q * n + r;
    assert x + n == (q + 1) * n + r;
    DivUnique(x + n, n, q + 1, r);
  }

  lemma DivUnique(x: int, n: int, q: int, r: int)
    requires 0 < n && 0 <= r < n && x == q * n + r
    ensures x / n == q
  {
    var q', r' := x / n, x % n;
    assert x == q' * n + r';
    assert (q - q') * n == r' - r;
    if q' < q {
      assert (q - q') * n >= n by { MulAtLeast(q - q', n); }
    } else if q < q' {
      assert (q' - q) * n >= n by { MulAtLeast(q' - q, n); }
    }
  }

  /** Multiplication bound used by DivUnique and WholePackets. */
  lemma MulAtLeast(a: int, n: int)
    requires 1 <= a && 0 < n
    ensures a * n >= n
  {
  }

  /** A text made of whole packets, followed by at most one packet's worth,
      is sent as the packets of the first part and then the remainder. */
  lemma {:induction false} PacketsAppend(t: seq<Byte>, u: seq<Byte>, n: nat)
    requires 0 < n && |t| % n == 0 && 0 < |u| <= n
    ensures Packets(t + u, n) == Packets(t, n) + [u]
    decreases |t|
  {
    if |t| == 0 {
      assert t + u == u;
    } else {
      WholePackets(|t|, n);
      var t' := t[n..];
      assert |t + u| > n;
      assert Packets(t + u, n) == [(t + u)[..n]] + Packets((t + u)[n..], n);
      assert (t + u)[..n] == t[..n];
      assert (t + u)[n..] == t' + u;
      if |t'| == 0 {
        assert t == t[..n];
        assert Packets(t' + u, n) == [u];
      } else {
        assert Packets(t, n) == [t[..n]] + Packets(t', n);
        PacketsAppend(t', u, n);
      }
    }
  }

  /** The write index after `i %= n`: it wraps to 0 exactly when the buffer
      is full, and the packets sent so far still cover whole packets. */
  lemma IndexWraps(i: nat, n: nat, start: nat)
    requires 0 < i <= n && start % n == 0
    ensures i % n == if i == n then 0 else i
    ensures i == n ==> (start + n) % n == 0
  {
    if i == n {
      DivUnique(start + n, n, start / n + 1, 0);
    }
  }

  /** A positive multiple of `n` is at least `n`, and less `n` is still a multiple. */
  lemma WholePackets(x: nat, n: nat)
    requires 0 < n && 0 < x && x % n == 0
    ensures n <= x && (x - n) % n == 0
  {
    var q := x / n;
    assert x == q * n;
    MulAtLeast(q, n);
    assert x - n == (q - 1) * n;
    DivUnique(x - n, n, q - 1, 0);
  }

  lemma ArmsForAppend(ps: seq<seq<Byte>>, p: seq<Byte>)
    ensures ArmsFor(ps + [p]) == ArmsFor(ps) + [ArmEndpoint(DatIn, |p|)]
  {
    assert (ps + [p])[..|ps|] == ps;
  }

  /** The packet serial_print_string sends at position `k`: the bytes from
      `start`, which follows whole packets, up to `k` extend the packet list
      of the text so far by one. */
  lemma SentTail(s: seq<Byte>, start: nat, k: nat, n: nat)
    requires start < k <= start + n && k <= |s| && start % n == 0
    ensures Packets(s[..k], n) == Packets(s[..start], n) + [s[start..k]]
    ensures ArmsFor(Packets(s[..k], n)) == ArmsFor(Packets(s[..start], n)) + [ArmEndpoint(DatIn, k - start)]
  {
    assert s[..start] + s[start..k] == s[..k];
    PacketsAppend(s[..start], s[start..k], n);
    ArmsForAppend(Packets(s[..start], n), s[start..k]);
  }

  // ---------------------------------------------------------------------------
  // The example's state
  // ---------------------------------------------------------------------------

  class SerialApp {
    const cdc: CdcAcm

    /** m_serial_pkt_sent and m_serial_pkt_rcv. */
    var pktSent: bool
    var pktRcv: bool

    /** The contents of each DATA IN packet armed so far, oldest first. */
    var packets: seq<seq<Byte>>

    constructor (cdc: CdcAcm)
      ensures this.cdc == cdc
      ensures pktSent && !pktRcv && packets == []
    {
      this.cdc := cdc;
      pktSent := true;
      pktRcv := false;
      packets := [];
    }

    /** cdc_data_out: a packet has arrived. */
    method CdcDataOut()
      modifies this`pktRcv
      ensures pktRcv
    {
      pktRcv := true;
    }

    /** cdc_data_in: the last packet has gone. */
    method CdcDataIn()
      modifies this`pktSent
      ensures pktSent
    {
      pktSent := true;
    }

    /** cdc_tasks after a completed transaction, together with the example's
        hooks it calls: DATA OUT raises the received flag, DATA IN the sent
        flag. */
    method Transaction(u: Ustat)
      requires cdc.Valid()
      modifies cdc`epStat, cdc`numDataOut, cdc`log, this`pktSent, this`pktRcv
      ensures cdc.Valid()
      ensures var t := cdc.TransactionTarget(u);
        if t.None? then cdc.epStat == old(cdc.epStat) && cdc.log == old(cdc.log)
        else cdc.epStat == old(cdc.epStat)[t.value := FlipToggle(old(cdc.epStat)[t.value])]
      ensures cdc.TransactionTarget(u) == Some(ComIn) ==> cdc.log == old(cdc.log) + [NotificationHook]
      ensures cdc.TransactionTarget(u) == Some(DatOut) ==> cdc.log == old(cdc.log) + [DataOutHook]
      ensures cdc.TransactionTarget(u) == Some(DatIn) ==> cdc.log == old(cdc.log) + [DataInHook]
      ensures pktRcv == (old(pktRcv) || cdc.TransactionTarget(u) == Some(DatOut))
      ensures pktSent == (old(pktSent) || cdc.TransactionTarget(u) == Some(DatIn))
      ensures cdc.numDataOut == if cdc.TransactionTarget(u) == Some(DatOut) then cdc.bds[DatOut].cnt else old(cdc.numDataOut)
    {
      var t := cdc.TransactionTarget(u);
      cdc.Tasks(u);
      if t == Some(DatOut) {
        CdcDataOut();
      } else if t == Some(DatIn) {
        CdcDataIn();
      }
    }

    /** send: clear the sent flag and arm DATA IN with `amount` bytes of the
        IN buffer. */
    method Send(amount: Byte)
      requires amount <= cdc.datEpIn.Length
      modifies this`pktSent, this`packets, cdc`log
      ensures !pktSent
      ensures packets == old(packets) + [cdc.datEpIn[..amount]]
      ensures cdc.log == old(cdc.log) + [ArmEndpoint(DatIn, amount)]
    {
      pktSent := false;
      cdc.ArmDataEpIn(amount);
      packets := packets + [cdc.datEpIn[..amount]];
    }

    /** receive: consume the received flag and re-arm DATA OUT. */
    method Receive()
      modifies this`pktRcv, cdc`log
      ensures !pktRcv
      ensures cdc.log == old(cdc.log) + [ArmEndpoint(DatOut, cdc.cfg.datEpSize)]
    {
      pktRcv := false;
      cdc.ArmDataEpOut();
    }

    /** serial_echo: re-arm DATA OUT, copy the received bytes into the IN
        buffer and send exactly that many. The received count is the OUT BD's
        CNT, which the hardware keeps within the armed size. */
    method SerialEcho()
      requires cdc.Valid() && cdc.numDataOut <= cdc.cfg.datEpSize
      modifies this`pktRcv, this`pktSent, this`packets, cdc`log, cdc.datEpIn
      ensures !pktRcv && !pktSent
      ensures packets == old(packets) + [old(cdc.datEpOut[..cdc.numDataOut])]
      ensures cdc.log == old(cdc.log) + [ArmEndpoint(DatOut, cdc.cfg.datEpSize), ArmEndpoint(DatIn, cdc.numDataOut)]
      ensures cdc.datEpIn[cdc.numDataOut..] == old(cdc.datEpIn[cdc.numDataOut..])
    {
      Receive();
      var count := cdc.numDataOut;
      forall j | 0 <= j < count {
        cdc.datEpIn[j] := cdc.datEpOut[j];
      }
      assert cdc.datEpIn[..count] == old(cdc.datEpOut[..count]);
      Send(count);
    }

    /** serial_print_string's state once the bytes before `k` are handled:
        the bytes from `start` on fill the IN buffer's first `i` slots, and
        everything before `start` has gone out as whole packets since the
        state `packets0`, `log0`. */
    ghost predicate Printing(s: seq<Byte>, k: nat, i: nat, start: nat,
                             packets0: seq<seq<Byte>>, log0: seq<Action>)
      reads this, cdc, cdc.datEpIn
    {
      0 < cdc.cfg.datEpSize <= 64 && cdc.cfg.datEpSize == cdc.datEpIn.Length && k <= |s| &&
      i < cdc.cfg.datEpSize && start + i == k && start % cdc.cfg.datEpSize == 0 &&
      cdc.datEpIn[..i] == s[start..k] &&
      packets == packets0 + Packets(s[..start], cdc.cfg.datEpSize) &&
      cdc.log == log0 + ArmsFor(Packets(s[..start], cdc.cfg.datEpSize))
    }

    /** serial_print_string: fill the IN buffer with the string's bytes, send
        it each time it is full, and send whatever is left at the terminator. */
    method SerialPrintString(s: seq<Byte>)
      requires cdc.Valid() && 0 in s
      modifies this`pktSent, this`packets, cdc`log, cdc.datEpIn
      ensures packets == old(packets) + Packets(Text(s), cdc.cfg.datEpSize)
      ensures cdc.log == old(cdc.log) + ArmsFor(Packets(Text(s), cdc.cfg.datEpSize))
      ensures pktSent == (old(pktSent) && Text(s) == [])
    {
      ghost var len := FirstNul(s);
      ghost var packets0, log0, sent0 := packets, cdc.log, pktSent;
      var i: Byte := 0;
      var k: nat := 0;
      ghost var start: nat := 0;
      while s[k] != 0
        invariant k <= len && Printing(s, k, i, start, packets0, log0)
        invariant pktSent == (sent0 && start == 0)
        decreases len - k
      {
        i, start := PutByte(s, k, i, start, packets0, log0);
        k := k + 1;
      }
      assert s[..k] == Text(s);
      FlushRest(s, k, i, start, packets0, log0);
    }

    /** The end of serial_print_string: send what the IN buffer still holds,
        if anything. */
    method FlushRest(s: seq<Byte>, k: nat, i: Byte, ghost start: nat,
                     ghost packets0: seq<seq<Byte>>, ghost log0: seq<Action>)
      requires Printing(s, k, i, start, packets0, log0)
      modifies this`pktSent, this`packets, cdc`log
      ensures packets == packets0 + Packets(s[..k], cdc.cfg.datEpSize)
      ensures cdc.log == log0 + ArmsFor(Packets(s[..k], cdc.cfg.datEpSize))
      ensures pktSent == (old(pktSent) && i == 0)
    {
      if i != 0 {
        Send(i);
        SentTail(s, start, k, cdc.cfg.datEpSize);
      }
    }

    /** One pass of serial_print_string's loop: store the byte at `k` in the
        IN buffer at `i`, so the write is in bounds; advance `i` modulo the
        packet size; and send the buffer when that wraps `i` to 0. */
    method PutByte(s: seq<Byte>, k: nat, i: Byte, ghost start: nat,
                   ghost packets0: seq<seq<Byte>>, ghost log0: seq<Action>)
      returns (i': Byte, ghost start': nat)
      requires k < |s| && Printing(s, k, i, start, packets0, log0)
      modifies this`pktSent, this`packets, cdc`log, cdc.datEpIn
      ensures Printing(s, k + 1, i', start', packets0, log0)
      ensures i' == (i + 1) % cdc.cfg.datEpSize
      ensures start' == start ==> pktSent == old(pktSent)
      ensures start' != start ==> !pktSent && 0 < start'
    {
      i' := StoreByte(s, k, i, start, packets0, log0);
      start' := start;
      if i' == 0 {
        Flush(s, k + 1, start, packets0, log0);
        start' := k + 1;
      }
    }

    /** The IN buffer holds a whole packet: the bytes of `s` from `start` to
        `k`, with everything before `start` already sent. */
    ghost predicate Filled(s: seq<Byte>, k: nat, start: nat,
                           packets0: seq<seq<Byte>>, log0: seq<Action>)
      reads this, cdc, cdc.datEpIn
    {
      0 < cdc.cfg.datEpSize <= 64 && cdc.cfg.datEpSize == cdc.datEpIn.Length && k <= |s| &&
      start + cdc.cfg.datEpSize == k && start % cdc.cfg.datEpSize == 0 &&
      cdc.datEpIn[..cdc.cfg.datEpSize] == s[start..k] &&
      packets == packets0 + Packets(s[..start], cdc.cfg.datEpSize) &&
      cdc.log == log0 + ArmsFor(Packets(s[..start], cdc.cfg.datEpSize))
    }

    /** The store and index step of serial_print_string's loop. */
    method StoreByte(s: seq<Byte>, k: nat, i: Byte, ghost start: nat,
                     ghost packets0: seq<seq<Byte>>, ghost log0: seq<Action>)
      returns (i': Byte)
      requires k < |s| && Printing(s, k, i, start, packets0, log0)
      modifies cdc.datEpIn
      ensures i' == (i + 1) % cdc.cfg.datEpSize
      ensures i' != 0 ==> Printing(s, k + 1, i', start, packets0, log0)
      ensures i' == 0 ==> Filled(s, k + 1, start, packets0, log0)
    {
      var n := cdc.cfg.datEpSize;
      ghost var prefix := cdc.datEpIn[..i];
      cdc.datEpIn[i] := s[k];
      assert cdc.datEpIn[..i + 1] == prefix + [s[k]];
      assert s[start..k + 1] == s[start..k] + [s[k]];
      IndexWraps(i as nat + 1, n, start);
      i' := (i + 1) % n;
    }

    /** The send step of serial_print_string's loop, once the buffer is full. */
    method Flush(s: seq<Byte>, k: nat, ghost start: nat,
                 ghost packets0: seq<seq<Byte>>, ghost log0: seq<Action>)
      requires Filled(s, k, start, packets0, log0)
      modifies this`pktSent, this`packets, cdc`log
      ensures Printing(s, k, 0, k, packets0, log0)
      ensures !pktSent && 0 < k
    {
      var n := cdc.cfg.datEpSize;
      Send(n);
      SentTail(s, start, k, n);
      IndexWraps(n, n, start);
    }
  }
}
