/**
 * The service's `COMMANDS` table: one fixed NEC frame per power action, and
 * the lookup `COMMANDS['power_' + action]` that `send_tv_command` performs.
 */
module Commands {
  import opened Wrappers
  import opened NecFrame

  /** The frame stored under 'power_on'. */
  const PowerOnFrame: seq<bv8> :=
    [0x01, 0x30, 0x41, 0x30, 0x41, 0x30, 0x43, 0x02, 0x43, 0x32, 0x30, 0x33, 0x44, 0x36, 0x30, 0x30, 0x30, 0x31, 0x03, 0x73, 0x0D]

  /** The frame stored under 'power_off'. */
  const PowerOffFrame: seq<bv8> :=
    [0x01, 0x30, 0x41, 0x30, 0x41, 0x30, 0x43, 0x02, 0x43, 0x32, 0x30, 0x33, 0x44, 0x36, 0x30, 0x30, 0x30, 0x34, 0x03, 0x76, 0x0D]

  const Table: map<string, seq<bv8>> := map["power_on" := PowerOnFrame, "power_off" := PowerOffFrame]

  /** Destination 'A' (monitor ID 1), source '0' (the controller), message type 'A' (command). */
  const MonitorCommand: Header := Header(0x41, 0x30, 0x41)

  /** ASCII "C203D6": the power-control command code. */
  const PowerControl: seq<bv8> := [0x43, 0x32, 0x30, 0x33, 0x44, 0x36]

  /** ASCII "0001" and "0004": the power modes 'on' and 'off'. */
  const ModeOn: seq<bv8> := [0x30, 0x30, 0x30, 0x31]
  const ModeOff: seq<bv8> := [0x30, 0x30, 0x30, 0x34]

  /** `COMMANDS[f'power_{action}']`; None where Python raises KeyError. */
  function CommandFor(action: string): (r: Option<seq<bv8>>)
    ensures r.Some? <==> action == "on" || action == "off"
    ensures action == "on" ==> r == Some(PowerOnFrame)
    ensures action == "off" ==> r == Some(PowerOffFrame)
  {
    var key := "power_" + action;
    assert key == "power_on" <==> action == "on" by {
      if key == "power_on" { assert action == key[6..] == "on"; }
    }
    assert key == "power_off" <==> action == "off" by {
      if key == "power_off" { assert action == key[6..] == "off"; }
    }
    if key in Table then Some(Table[key]) else None
  }

  /** Two actions that select the same frame are the same action. */
  lemma CommandForInjective(a: string, b: string)
    requires CommandFor(a).Some? && CommandFor(a) == CommandFor(b)
    ensures a == b
  {
    assert PowerOnFrame[17] != PowerOffFrame[17];
  }

  lemma XorSnoc(s: seq<bv8>, b: bv8)
    ensures Xor(s + [b]) == Xor(s) ^ b
  {
    assert (s + [b])[..|s|] == s;
  }

  /** The checked bytes common to both frames, from the reserved byte through the mode's first three digits. */
  const SharedChecked: seq<bv8> :=
    [0x30, 0x41, 0x30, 0x41, 0x30, 0x43, 0x02, 0x43, 0x32, 0x30, 0x33, 0x44, 0x36, 0x30, 0x30, 0x30]

  lemma SharedCheckedXor()
    ensures Xor(SharedChecked) == 0x41
  {
    var s := SharedChecked;
    assert Xor(s[..0]) == 0;
    assert Xor(s[..1]) == 0x30 by { assert s[..1][..0] == s[..0]; }
    assert Xor(s[..2]) == 0x71 by { assert s[..2][..1] == s[..1]; }
    assert Xor(s[..3]) == 0x41 by { assert s[..3][..2] == s[..2]; }
    assert Xor(s[..4]) == 0x00 by { assert s[..4][..3] == s[..3]; }
    assert Xor(s[..5]) == 0x30 by { assert s[..5][..4] == s[..4]; }
    assert Xor(s[..6]) == 0x73 by { assert s[..6][..5] == s[..5]; }
    assert Xor(s[..7]) == 0x71 by { assert s[..7][..6] == s[..6]; }
    assert Xor(s[..8]) == 0x32 by { assert s[..8][..7] == s[..7]; }
    assert Xor(s[..9]) == 0x00 by { assert s[..9][..8] == s[..8]; }
    assert Xor(s[..10]) == 0x30 by { assert s[..10][..9] == s[..9]; }
    assert Xor(s[..11]) == 0x03 by { assert s[..11][..10] == s[..10]; }
    assert Xor(s[..12]) == 0x47 by { assert s[..12][..11] == s[..11]; }
    assert Xor(s[..13]) == 0x71 by { assert s[..13][..12] == s[..12]; }
    assert Xor(s[..14]) == 0x41 by { assert s[..14][..13] == s[..13]; }
    assert Xor(s[..15]) == 0x71 by { assert s[..15][..14] == s[..14]; }
    assert Xor(s[..16]) == 0x41 by { assert s[..16][..15] == s[..15]; }
    assert s[..16] == s;
  }

  /** The checked bytes of a power-control frame whose mode ends in `digit`. */
  lemma PowerChecked(digit: bv8)
    ensures Checked(MonitorCommand, PowerControl + [0x30, 0x30, 0x30, digit]) == SharedChecked + [digit, ETX]
    ensures Xor(SharedChecked + [digit, ETX]) == 0x41 ^ digit ^ ETX
  {
    assert LengthField(12) == [0x30, 0x43];
    SharedCheckedXor();
    XorSnoc(SharedChecked, digit);
    XorSnoc(SharedChecked + [digit], ETX);
    assert SharedChecked + [digit] + [ETX] == SharedChecked + [digit, ETX];
  }

  /** Both table entries are the NEC power-control message, encoded by the frame format. */
  lemma TableFollowsFormat()
    ensures PowerOnFrame == Encode(MonitorCommand, PowerControl + ModeOn)
    ensures PowerOffFrame == Encode(MonitorCommand, PowerControl + ModeOff)
  {
    assert PowerOnFrame == Encode(MonitorCommand, PowerControl + ModeOn) by {
      PowerChecked(0x31);
    }
    assert PowerOffFrame == Encode(MonitorCommand, PowerControl + ModeOff) by {
      PowerChecked(0x34);
    }
  }

  /**
   * Each frame is 21 bytes with SOH at 0, STX at 7, ETX at 18 and CR at 20;
   * byte 19 is the XOR of bytes 1 through 18; the length field at bytes 5-6
   * reads 12, the count of bytes from STX through ETX; and the frame parses
   * back to the power-control message.
   */
  lemma FrameLayout(f: seq<bv8>)
    requires f == PowerOnFrame || f == PowerOffFrame
    ensures |f| == 21
    ensures f[0] == SOH && f[7] == STX && f[18] == ETX && f[20] == CR
    ensures f[19] == Xor(f[1..19])
    ensures LengthValue(f[5], f[6]) == Some(12) && |f[7..19]| == 12
    ensures WellFormed(f)
    ensures Parse(f) == Some((MonitorCommand, PowerControl + (if f == PowerOnFrame then ModeOn else ModeOff)))
  {
    TableFollowsFormat();
    var mode := if f == PowerOnFrame then ModeOn else ModeOff;
    EncodeLayout(MonitorCommand, PowerControl + mode);
    ParseEncode(MonitorCommand, PowerControl + mode);
  }

  /** The two frames agree everywhere except the last mode digit (index 17) and the block check (index 19). */
  lemma FramesDifferOnlyInMode()
    ensures |PowerOnFrame| == |PowerOffFrame| == 21
    ensures forall i | 0 <= i < 21 && i != 17 && i != 19 :: PowerOnFrame[i] == PowerOffFrame[i]
    ensures PowerOnFrame[17] == 0x31 && PowerOffFrame[17] == 0x34
    ensures PowerOnFrame[19] != PowerOffFrame[19]
  {
  }
}
