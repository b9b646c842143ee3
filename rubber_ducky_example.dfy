/** The RubberDucky HID keyboard example
    (Examples/HID_Examples/HID_Keyboard_Examples/HID_RubberDucky_Example.X/main.c):
    typing a NUL-terminated string as a sequence of keyboard reports, the
    consumer-control report, and the re-arming of the HID OUT endpoint.

    The character-to-key table (ascii_2_key) is not part of this model; it is a
    parameter of the application. Each hid_send_report call is recorded with a
    copy of the report it sends; the wait for the report to go is not
    modelled. */
module RubberDuckyExample {
  import opened Usb
  import opened CString

  /** g_key_result: modifier byte and key code for one character. */
  datatype KeyResult = KeyResult(modifier: Byte, keyCode: Byte)

  /** The all-keys-up report content. */
  const RELEASE: KeyResult := KeyResult(0, 0)

  /** g_hid_in_report1: the example writes only Modifiers and Keycode; the
      remaining bytes of the report are carried along untouched. */
  datatype KeyboardReport = KeyboardReport(modifiers: Byte, keycode: Byte, others: seq<Byte>)

  /** g_hid_in_report2: the example writes only Consumer_Byte. */
  datatype ConsumerReport = ConsumerReport(consumerByte: Byte, others: seq<Byte>)

  /** A report handed to hid_send_report: report 0 is the keyboard report,
      report 1 the consumer report. */
  datatype HidReport = Report0(keyboard: KeyboardReport) | Report1(consumer: ConsumerReport)

  // ---------------------------------------------------------------------------
  // What print_keys types, as a function of the string
  // ---------------------------------------------------------------------------

  /** A keyboard report print_keys sends: a character's key, or all keys up. */
  datatype KeyEvent = Press(c: Byte) | Release

  /** The events for the characters before position `i` of `s`: each
      character's press, followed by a release when the next byte of `s` is
      the same character. */
  function Events(s: seq<Byte>, i: nat): (es: seq<KeyEvent>)
    requires i < |s|
    ensures i <= |es| <= 2 * i
  {
    if i == 0 then []
    else Events(s, i - 1) + [Press(s[i - 1])] + (if s[i] == s[i - 1] then [Release] else [])
  }

  /** Everything print_keys sends for the string `s`: the events of its text,
      then a final release. */
  function PrintKeysEvents(s: seq<Byte>): (es: seq<KeyEvent>)
    requires 0 in s
    ensures FirstNul(s) + 1 <= |es| <= 2 * FirstNul(s) + 1
    ensures es[|es| - 1] == Release
  {
    Events(s, FirstNul(s)) + [Release]
  }

  /** The key a report carries for an event. */
  function KeyOf(e: KeyEvent, asciiToKey: Byte -> KeyResult): KeyResult
  {
    match e
    case Press(c) => asciiToKey(c)
    case Release => RELEASE
  }

  /** The keyboard reports sent for the events `ev`, with `others` as the
      bytes of the report the example does not write. */
  function KeyReports(ev: seq<KeyEvent>, asciiToKey: Byte -> KeyResult, others: seq<Byte>): (r: seq<HidReport>)
    ensures |r| == |ev|
    ensures forall k :: 0 <= k < |ev| ==>
      r[k] == Report0(KeyboardReport(KeyOf(ev[k], asciiToKey).modifier, KeyOf(ev[k], asciiToKey).keyCode, others))
  {
    if ev == [] then []
    else KeyReports(ev[..|ev| - 1], asciiToKey, others) +
         [Report0(KeyboardReport(KeyOf(ev[|ev| - 1], asciiToKey).modifier, KeyOf(ev[|ev| - 1], asciiToKey).keyCode, others))]
  }

  lemma KeyReportsAppend(ev: seq<KeyEvent>, e: KeyEvent, asciiToKey: Byte -> KeyResult, others: seq<Byte>)
    ensures KeyReports(ev + [e], asciiToKey, others) ==
            KeyReports(ev, asciiToKey, others) +
            [Report0(KeyboardReport(KeyOf(e, asciiToKey).modifier, KeyOf(e, asciiToKey).keyCode, others))]
  {
    assert (ev + [e])[..|ev|] == ev;
  }

  /** The reports print_keys sends for the character at `i`: its key, then a
      release when the next byte repeats it. */
  function CharReports(s: seq<Byte>, i: nat, asciiToKey: Byte -> KeyResult, others: seq<Byte>): seq<HidReport>
    requires i + 1 < |s|
  {
    [Report0(KeyboardReport(asciiToKey(s[i]).modifier, asciiToKey(s[i]).keyCode, others))] +
    (if s[i + 1] == s[i] then [Report0(KeyboardReport(0, 0, others))] else [])
  }

  /** One more character of the text adds its reports at the end. */
  lemma EventsStep(s: seq<Byte>, i: nat, asciiToKey: Byte -> KeyResult, others: seq<Byte>)
    requires i + 1 < |s|
    ensures KeyReports(Events(s, i + 1), asciiToKey, others) ==
            KeyReports(Events(s, i), asciiToKey, others) + CharReports(s, i, asciiToKey, others)
  {
    KeyReportsAppend(Events(s, i), Press(s[i]), asciiToKey, others);
    if s[i + 1] == s[i] {
      KeyReportsAppend(Events(s, i) + [Press(s[i])], Release, asciiToKey, others);
    } else {
      assert Events(s, i + 1) == Events(s, i) + [Press(s[i])];
    }
  }

  /** A pass of print_keys' loop at a non-zero byte stays inside the text and
      extends the reports sent so far by that character's reports. */
  lemma PrintStep(s: seq<Byte>, i: nat, asciiToKey: Byte -> KeyResult, others: seq<Byte>,
                  sent0: seq<HidReport>, sent: seq<HidReport>)
    requires 0 in s && i <= FirstNul(s) < 256 && s[i] != 0
    requires sent == sent0 + KeyReports(Events(s, i), asciiToKey, others)
    ensures i < 255 && i + 1 < |s| && i + 1 <= FirstNul(s)
    ensures sent0 + KeyReports(Events(s, i + 1), asciiToKey, others) == sent + CharReports(s, i, asciiToKey, others)
  {
    EventsStep(s, i, asciiToKey, others);
    AppendRegroup(sent0, KeyReports(Events(s, i), asciiToKey, others), CharReports(s, i, asciiToKey, others));
  }

  /** Sequence regrouping for PrintStep, stated apart to keep that proof small. */
  lemma AppendRegroup<T>(a: seq<T>, b: seq<T>, c: seq<T>)
    ensures a + (b + c) == (a + b) + c
  {
  }

  /** print_keys' loop ends at the terminator, where the final release
      completes the trace. */
  lemma PrintEnd(s: seq<Byte>, i: nat, asciiToKey: Byte -> KeyResult, others: seq<Byte>)
    requires 0 in s && i <= FirstNul(s) && s[i] == 0
    ensures i == FirstNul(s) && Text(s) == s[..i]
    ensures KeyReports(PrintKeysEvents(s), asciiToKey, others) ==
            KeyReports(Events(s, i), asciiToKey, others) + [Report0(KeyboardReport(0, 0, others))]
  {
    KeyReportsAppend(Events(s, i), Release, asciiToKey, others);
  }

  /** The characters pressed, in order. */
  function Presses(ev: seq<KeyEvent>): seq<Byte>
  {
    if ev == [] then []
    else Presses(ev[..|ev| - 1]) + (if ev[|ev| - 1].Press? then [ev[|ev| - 1].c] else [])
  }

  /** Number of adjacent equal pairs in a text. */
  function Repeats(t: seq<Byte>): nat
  {
    if |t| < 2 then 0
    else Repeats(t[..|t| - 1]) + (if t[|t| - 1] == t[|t| - 2] then 1 else 0)
  }

  /** Two presses in a row are of different characters, so the host always
      sees a key go up before the same character is typed again. */
  predicate NoRepeatedPress(ev: seq<KeyEvent>)
  {
    forall k :: 0 < k < |ev| && ev[k - 1].Press? && ev[k].Press? ==> ev[k - 1].c != ev[k].c
  }

  /** A release that is not the last event sits between two presses of the
      same character. */
  predicate ReleasesSplitRepeats(ev: seq<KeyEvent>)
  {
    forall k :: 0 <= k < |ev| - 1 && ev[k].Release? ==> 0 < k && ev[k - 1].Press? && ev[k + 1] == ev[k - 1]
  }

  /** The last event so far: the previous character's press, or the release
      that follows it when the next byte repeats it. */
  lemma EventsLast(s: seq<Byte>, i: nat)
    requires 0 < i < |s|
    ensures |Events(s, i)| >= 1
    ensures Events(s, i)[|Events(s, i)| - 1] == (if s[i] == s[i - 1] then Release else Press(s[i - 1]))
    ensures s[i] == s[i - 1] ==> |Events(s, i)| >= 2 && Events(s, i)[|Events(s, i)| - 2] == Press(s[i - 1])
  {
  }

  /** One press per character before position `i`, in order. */
  lemma {:induction false} EventsPresses(s: seq<Byte>, i: nat)
    requires i < |s|
    ensures Presses(Events(s, i)) == s[..i]
  {
    if i > 0 {
      EventsPresses(s, i - 1);
      var prev := Events(s, i - 1);
      PressesAppend(prev, Press(s[i - 1]));
      assert s[..i] == s[..i - 1] + [s[i - 1]];
      if s[i] == s[i - 1] {
        PressesAppend(prev + [Press(s[i - 1])], Release);
      } else {
        assert Events(s, i) == prev + [Press(s[i - 1])];
      }
    }
  }

  /** One event per character and one per adjacent equal pair, looking one
      byte past position `i`. */
  lemma {:induction false} EventsLength(s: seq<Byte>, i: nat)
    requires i < |s|
    ensures |Events(s, i)| == i + Repeats(s[..i + 1])
  {
    if i > 0 {
      EventsLength(s, i - 1);
      assert s[..i + 1][..i] == s[..i];
    }
  }

  /** No two equal presses in a row, and every inner release splits a repeat. */
  lemma {:induction false} EventsSeparated(s: seq<Byte>, i: nat)
    requires i < |s|
    ensures NoRepeatedPress(Events(s, i)) && ReleasesSplitRepeats(Events(s, i))
  {
    if i > 0 {
      EventsSeparated(s, i - 1);
      var prev := Events(s, i - 1);
      var ev := Events(s, i);
      var tail := if s[i] == s[i - 1] then [Release] else [];
      assert ev == prev + [Press(s[i - 1])] + tail;
      if i > 1 {
        EventsLast(s, i - 1);
      }
      forall k | 0 < k < |ev| && ev[k - 1].Press? && ev[k].Press?
        ensures ev[k - 1].c != ev[k].c
      {
        if k < |prev| {
          assert ev[k - 1] == prev[k - 1] && ev[k] == prev[k];
        } else if k == |prev| {
          assert ev[k] == Press(s[i - 1]) && ev[k - 1] == prev[|prev| - 1];
        }
      }
      forall k | 0 <= k < |ev| - 1 && ev[k].Release?
        ensures 0 < k && ev[k - 1].Press? && ev[k + 1] == ev[k - 1]
      {
        if k < |prev| - 1 {
          assert ev[k - 1] == prev[k - 1] && ev[k] == prev[k] && ev[k + 1] == prev[k + 1];
        } else if k == |prev| - 1 {
          assert ev[k - 1] == prev[|prev| - 2] && ev[k] == prev[|prev| - 1];
          assert ev[k + 1] == Press(s[i - 1]);
        }
      }
    }
  }

  lemma {:induction false} PressesAppend(ev: seq<KeyEvent>, e: KeyEvent)
    ensures Presses(ev + [e]) == Presses(ev) + (if e.Press? then [e.c] else [])
  {
    assert (ev + [e])[..|ev|] == ev;
  }

  /** What print_keys sends for a string: exactly one press per character of
      its text, in order; one release per adjacent pair of equal characters
      and one at the end, so len + repeats + 1 reports; never the same
      character twice in a row without a release between; every release but
      the final one between two presses of the same character. */
  lemma PrintKeysTrace(s: seq<Byte>)
    requires 0 in s
    ensures Presses(PrintKeysEvents(s)) == Text(s)
    ensures |PrintKeysEvents(s)| == |Text(s)| + Repeats(Text(s)) + 1
    ensures PrintKeysEvents(s)[|PrintKeysEvents(s)| - 1] == Release
    ensures NoRepeatedPress(PrintKeysEvents(s)) && ReleasesSplitRepeats(PrintKeysEvents(s))
  {
    var len := FirstNul(s);
    var ev := Events(s, len);
    EventsPresses(s, len);
    PressesAppend(ev, Release);
    TextRepeats(s);
    EventsLength(s, len);
    EventsSeparated(s, len);
    if len > 0 {
      EventsLast(s, len);
    }
    FinalRelease(ev);
  }

  /** Counting the pairs up to and including the terminator counts the text's
      pairs: the terminator never repeats a character of the text. */
  lemma TextRepeats(s: seq<Byte>)
    requires 0 in s
    ensures Repeats(s[..FirstNul(s) + 1]) == Repeats(Text(s))
  {
    var len := FirstNul(s);
    if len > 0 {
      assert s[len] != s[len - 1];
      assert s[..len + 1][..len] == Text(s);
    }
  }

  /** A final release after a press keeps the events separated. */
  lemma FinalRelease(ev: seq<KeyEvent>)
    requires NoRepeatedPress(ev) && ReleasesSplitRepeats(ev)
    requires ev != [] ==> ev[|ev| - 1].Press?
    ensures NoRepeatedPress(ev + [Release]) && ReleasesSplitRepeats(ev + [Release])
  {
    var all := ev + [Release];
    forall k | 0 < k < |all| && all[k - 1].Press? && all[k].Press?
      ensures all[k - 1].c != all[k].c
    {
      assert all[k - 1] == ev[k - 1] && all[k] == ev[k];
    }
    forall k | 0 <= k < |all| - 1 && all[k].Release?
      ensures 0 < k && all[k - 1].Press? && all[k + 1] == all[k - 1]
    {
      assert all[k] == ev[k] && k < |ev| - 1;
      assert all[k - 1] == ev[k - 1] && all[k + 1] == ev[k + 1];
    }
  }

  /** An empty string types nothing: one release report. */
  lemma PrintKeysEmpty(s: seq<Byte>)
    requires 0 in s && s[0] == 0
    ensures PrintKeysEvents(s) == [Release]
  {
  }

  /** The repeat test compares raw bytes, so two different characters in a row
      get no release between them, even where ascii_2_key maps both to the same
      key code (a letter and its capital). */
  lemma NoReleaseBetweenDistinctBytes(c: Byte, d: Byte)
    requires c != 0 && d != 0 && c != d
    ensures PrintKeysEvents([c, d, 0]) == [Press(c), Press(d), Release]
  {
    var s := [c, d, 0];
    assert s[1..] == [d, 0] && s[1..][1..] == [0];
    assert FirstNul(s) == 2;
    assert Events(s, 1) == [Press(c)];
    assert Events(s, 2) == [Press(c), Press(d)];
  }

  // ---------------------------------------------------------------------------
  // The HID OUT endpoint's ping-pong buffers
  // ---------------------------------------------------------------------------

  /** Value of Last_PPB for the odd buffer. */
  const ODD: bv1 := 1

  function PpBit(slot: PpSlot): bv1
  {
    if slot == Odd then 1 else 0
  }

  /** The OUT buffer hid_out re-arms: with ping-pong buffering on every
      endpoint but EP0, or on all endpoints, the buffer other than the one
      last used; with no ping-pong on the HID endpoint, its single buffer. */
  function NextOutSlot(mode: PingPongMode, lastPpb: bv1): (slot: PpSlot)
    ensures (mode == PingPong1To15 || mode == PingPongAllEp) <==> slot != Single
    ensures slot != Single ==> PpBit(slot) == lastPpb ^ 1
  {
    if mode == PingPong1To15 || mode == PingPongAllEp then
      (if lastPpb == ODD then Even else Odd)
    else Single
  }

  /** When the hardware's Last_PPB follows the buffer just armed, successive
      hid_out calls alternate between the two buffers. */
  lemma {:induction false} NextOutSlotAlternates(mode: PingPongMode, lastPpb: bv1)
    requires mode == PingPong1To15 || mode == PingPongAllEp
    ensures NextOutSlot(mode, lastPpb) != NextOutSlot(mode, PpBit(NextOutSlot(mode, lastPpb)))
    ensures NextOutSlot(mode, PpBit(NextOutSlot(mode, PpBit(NextOutSlot(mode, lastPpb))))) == NextOutSlot(mode, lastPpb)
  {
    var s1 := NextOutSlot(mode, lastPpb);
    assert PpBit(s1) == lastPpb ^ 1;
    var s2 := NextOutSlot(mode, PpBit(s1));
    assert PpBit(s2) == lastPpb;
  }

  // ---------------------------------------------------------------------------
  // The example's state
  // ---------------------------------------------------------------------------

  class KeyboardApp {
    const mode: PingPongMode
    /** ascii_2_key's table. */
    const asciiToKey: Byte -> KeyResult

    var report1: KeyboardReport
    var report2: ConsumerReport
    var keyResult: KeyResult
    /** The HID OUT endpoint's status record; its Last_PPB is HID_EP_OUT_LAST_PPB. */
    var outStat: EpStat

    /** Reports handed to hid_send_report, oldest first. */
    var sent: seq<HidReport>
    /** Buffers handed to hid_arm_ep_out, oldest first. */
    var outArms: seq<PpSlot>

    constructor (mode: PingPongMode, asciiToKey: Byte -> KeyResult, report1: KeyboardReport, report2: ConsumerReport)
      ensures this.mode == mode && this.asciiToKey == asciiToKey
      ensures this.report1 == report1 && this.report2 == report2
      ensures sent == [] && outArms == []
    {
      this.mode := mode;
      this.asciiToKey := asciiToKey;
      this.report1 := report1;
      this.report2 := report2;
      keyResult := KeyResult(0, 0);
      outStat := EpStat(0, 0, 0);
      sent := [];
      outArms := [];
    }

    /** ascii_2_key: look up a character's modifier and key code. */
    method AsciiToKey(c: Byte)
      modifies this`keyResult
      ensures keyResult == asciiToKey(c)
    {
      keyResult := asciiToKey(c);
    }

    /** send_key: write the two key fields of report 1 and send it as report 0. */
    method SendKey(modifier: Byte, keyCode: Byte)
      modifies this`report1, this`sent
      ensures report1 == old(report1).(modifiers := modifier, keycode := keyCode)
      ensures sent == old(sent) + [Report0(report1)]
    {
      report1 := report1.(modifiers := modifier);
      report1 := report1.(keycode := keyCode);
      sent := sent + [Report0(report1)];
    }

    /** send_consumer: write the consumer byte of report 2 and send it as report 1. */
    method SendConsumer(consumerVal: Byte)
      modifies this`report2, this`sent
      ensures report2 == old(report2).(consumerByte := consumerVal)
      ensures sent == old(sent) + [Report1(report2)]
    {
      report2 := report2.(consumerByte := consumerVal);
      sent := sent + [Report1(report2)];
    }

    /** print_keys: type the string's text. The index is a uint8_t, so the
        terminator must lie within the first 256 bytes. On a longer text the
        index wraps from 255 to 0: the repeat test then reads str[-1], and the
        loop starts over at str[0] and never ends. That behaviour is excluded
        here, and the requires is also what makes the loop's decreases hold. */
    method PrintKeys(s: seq<Byte>)
      requires 0 in s && FirstNul(s) < 256
      modifies this`report1, this`sent, this`keyResult
      ensures sent == old(sent) + KeyReports(PrintKeysEvents(s), asciiToKey, old(report1).others)
      ensures report1 == old(report1).(modifiers := 0, keycode := 0)
      ensures keyResult == if Text(s) == [] then old(keyResult) else asciiToKey(Text(s)[|Text(s)| - 1])
    {
      ghost var others := report1.others;
      var i: Byte := 0;
      while s[i] != 0
        invariant i <= FirstNul(s) && report1.others == others
        invariant sent == old(sent) + KeyReports(Events(s, i), asciiToKey, others)
        invariant keyResult == if i == 0 then old(keyResult) else asciiToKey(s[i - 1])
        decreases FirstNul(s) - i
      {
        PrintStep(s, i as nat, asciiToKey, others, old(sent), sent);
        i := TypeChar(s, i, others);
      }
      PrintEnd(s, i as nat, asciiToKey, others);
      SendKey(0, 0);
    }

    /** One pass of print_keys' loop: send the key of the character at `i`,
        step the index, and send a release if the byte there repeats it.
        `others` is report 1's unwritten bytes. */
    method TypeChar(s: seq<Byte>, i: Byte, ghost others: seq<Byte>)
      returns (next: Byte)
      requires i < 255 && i as int + 1 < |s| && report1.others == others
      modifies this`report1, this`sent, this`keyResult
      ensures next == i + 1 && report1.others == others
      ensures sent == old(sent) + CharReports(s, i as nat, asciiToKey, others)
      ensures keyResult == asciiToKey(s[i])
    {
      AsciiToKey(s[i]);
      SendKey(keyResult.modifier, keyResult.keyCode);
      next := i + 1;
      if s[next] == s[next - 1] {
        SendKey(0, 0);
      }
    }

    /** hid_out: re-arm the HID OUT endpoint after an output report. */
    method HidOut(reportNum: Byte)
      modifies this`outArms
      ensures outArms == old(outArms) + [NextOutSlot(mode, outStat.lastPpb)]
    {
      if mode == PingPong1To15 || mode == PingPongAllEp {
        if outStat.lastPpb == ODD {
          outArms := outArms + [Even];
        } else {
          outArms := outArms + [Odd];
        }
      } else {
        outArms := outArms + [Single];
      }
    }
  }
}
