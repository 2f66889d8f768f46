/** The LinTronic serial link to the amplifier (raspessence/lintronic.py):
    the frame encoder, the frame decoder and validator, and the receive loop.

    Bytes are integers 0..255; the ASCII characters the protocol uses are
    written by their codes with the character in a comment. */
module LinTronic {
  import opened Wrappers

  type Byte = x: int | 0 <= x < 256

  const StartOfTransmission: Byte := 60  // '<'
  const EndOfTransmission: Byte := 62    // '>'

  /** The amplifier's address, "01". */
  const LintronicAddress: seq<Byte> := [48, 49]
  /** Our own address, "00". */
  const OurAddress: seq<Byte> := [48, 48]
  /** The fixed suffix "024" after the repeat count. */
  const MagicSuffix: seq<Byte> := [48, 50, 52]

  /** Length of every command blob in the table below. */
  const CommandLength := 33

  // ---------------------------------------------------------------------
  // ASCII decimal digits

  predicate IsDigit(b: Byte) {
    48 <= b <= 57
  }

  predicate AllDigits(s: seq<Byte>) {
    forall i | 0 <= i < |s| :: IsDigit(s[i])
  }

  /** The bytes of a string of decimal digits (its ASCII encoding). */
  function Digits(s: string): (b: seq<Byte>)
    requires forall i | 0 <= i < |s| :: '0' <= s[i] <= '9'
    ensures |b| == |s| && AllDigits(b)
  {
    seq(|s|, i requires 0 <= i < |s| => s[i] as int)
  }

  /** The number a string of ASCII decimal digits denotes (most significant
      digit first); the empty string denotes 0. */
  function DigitsValue(s: seq<Byte>): nat
    requires AllDigits(s)
  {
    if s == [] then 0 else DigitsValue(s[..|s| - 1]) * 10 + (s[|s| - 1] - 48)
  }

  /** Python's `f"{n:03}"` for 0 <= n <= 999, as ASCII bytes: exactly three
      digits, zero-padded, that denote n. */
  function ThreeDigits(n: nat): (r: seq<Byte>)
    requires n < 1000
    ensures |r| == 3 && AllDigits(r) && DigitsValue(r) == n
    ensures n < 256 ==> r[0] <= 50  // at most "255" when n is a byte sum mod 256
  {
    var r := [48 + n / 100, 48 + n / 10 % 10, 48 + n % 10];
    DigitsValueOfThree(r);
    DecimalPlaces(n);
    r
  }

  /** n is its hundreds, tens and units digits. */
  lemma DecimalPlaces(n: nat)
    requires n < 1000
    ensures n / 100 < 10 && (n < 256 ==> n / 100 <= 2)
    ensures n == 100 * (n / 100) + 10 * (n / 10 % 10) + n % 10
  {
    assert n == 10 * (n / 10) + n % 10;
    assert n / 10 == 10 * (n / 10 / 10) + n / 10 % 10;
    assert n / 10 / 10 == n / 100;
  }

  lemma DigitsValueOfThree(r: seq<Byte>)
    requires |r| == 3 && AllDigits(r)
    ensures DigitsValue(r) == 100 * (r[0] as int - 48) + 10 * (r[1] as int - 48) + (r[2] as int - 48)
  {
    assert r[..2][..1] == r[..1];
    assert r[..1][..0] == [];
    assert DigitsValue(r[..1]) == r[0] as int - 48;
    assert DigitsValue(r[..2]) == 10 * (r[0] as int - 48) + (r[1] as int - 48);
  }

  /** Two repeat counts (or checksums) are rendered alike only when they are equal. */
  lemma ThreeDigitsInjective(m: nat, n: nat)
    requires m < 1000 && n < 1000
    ensures ThreeDigits(m) == ThreeDigits(n) <==> m == n
  {
  }

  /** The default repeat count 1 is rendered "001". */
  lemma DefaultRepeatCount()
    ensures ThreeDigits(1) == [48, 48, 49]
  {
  }

  // ---------------------------------------------------------------------
  // Commands

  datatype BeoCommand =
    | VolumeDown
    | VolumeUp
    | AudioAux
    | AudioNext
    | AudioPrev
    | AudioPause
    | AudioPlay
    | ATape2
    | AudioPowerOff
  {
    /** The command's fixed blob of ASCII digits. */
    function Value(): Blob {
      match this
      case VolumeDown => VolumeDownBlob
      case VolumeUp => VolumeUpBlob
      case AudioAux => AudioAuxBlob
      case AudioNext => AudioNextBlob
      case AudioPrev => AudioPrevBlob
      case AudioPause => AudioPauseBlob
      case AudioPlay => AudioPlayBlob
      case ATape2 => ATape2Blob
      case AudioPowerOff => AudioPowerOffBlob
    }
  }

  /** The nine commands have nine different codes on the wire. */
  lemma CommandValuesDistinct(a: BeoCommand, b: BeoCommand)
    ensures a.Value() == b.Value() <==> a == b
  {
    if a != b {
      CommandCode(a);
      CommandCode(b);
      assert a.Value()[18..21] != b.Value()[18..21];
    }
  }

  /** The three digits at offset 18 of a command's blob, which tell the
      commands apart. */
  function Code(c: BeoCommand): seq<Byte>
  {
    match c
    case VolumeDown => [49, 48, 48]
    case VolumeUp => [48, 57, 54]
    case AudioAux => [49, 51, 49]
    case AudioNext => [48, 53, 50]
    case AudioPrev => [48, 53, 48]
    case AudioPause => [48, 53, 52]
    case AudioPlay => [48, 53, 51]
    case ATape2 => [49, 52, 56]
    case AudioPowerOff => [48, 49, 50]
  }

  /** Each command's blob carries its code at offset 18. One lemma per
      blob below keeps each literal in a proof of its own. */
  lemma CommandCode(c: BeoCommand)
    ensures c.Value()[18..21] == Code(c)
  {
    match c
    case VolumeDown => VolumeDownCode();
    case VolumeUp => VolumeUpCode();
    case AudioAux => AudioAuxCode();
    case AudioNext => AudioNextCode();
    case AudioPrev => AudioPrevCode();
    case AudioPause => AudioPauseCode();
    case AudioPlay => AudioPlayCode();
    case ATape2 => ATape2Code();
    case AudioPowerOff => AudioPowerOffCode();
  }

  // The code of each blob, read off its digits.

  lemma VolumeDownCode()
    ensures VolumeDownBlob[18..21] == Code(VolumeDown)
  {
    assert VolumeDownBlob[18..21] == [VolumeDownBlob[18], VolumeDownBlob[19], VolumeDownBlob[20]];
  }

  lemma VolumeUpCode()
    ensures VolumeUpBlob[18..21] == Code(VolumeUp)
  {
    assert VolumeUpBlob[18..21] == [VolumeUpBlob[18], VolumeUpBlob[19], VolumeUpBlob[20]];
  }

  lemma AudioAuxCode()
    ensures AudioAuxBlob[18..21] == Code(AudioAux)
  {
    assert AudioAuxBlob[18..21] == [AudioAuxBlob[18], AudioAuxBlob[19], AudioAuxBlob[20]];
  }

  lemma AudioNextCode()
    ensures AudioNextBlob[18..21] == Code(AudioNext)
  {
    assert AudioNextBlob[18..21] == [AudioNextBlob[18], AudioNextBlob[19], AudioNextBlob[20]];
  }

  lemma AudioPrevCode()
    ensures AudioPrevBlob[18..21] == Code(AudioPrev)
  {
    assert AudioPrevBlob[18..21] == [AudioPrevBlob[18], AudioPrevBlob[19], AudioPrevBlob[20]];
  }

  lemma AudioPauseCode()
    ensures AudioPauseBlob[18..21] == Code(AudioPause)
  {
    assert AudioPauseBlob[18..21] == [AudioPauseBlob[18], AudioPauseBlob[19], AudioPauseBlob[20]];
  }

  lemma AudioPlayCode()
    ensures AudioPlayBlob[18..21] == Code(AudioPlay)
  {
    assert AudioPlayBlob[18..21] == [AudioPlayBlob[18], AudioPlayBlob[19], AudioPlayBlob[20]];
  }

  lemma ATape2Code()
    ensures ATape2Blob[18..21] == Code(ATape2)
  {
    assert ATape2Blob[18..21] == [ATape2Blob[18], ATape2Blob[19], ATape2Blob[20]];
  }

  lemma AudioPowerOffCode()
    ensures AudioPowerOffBlob[18..21] == Code(AudioPowerOff)
  {
    assert AudioPowerOffBlob[18..21] == [AudioPowerOffBlob[18], AudioPowerOffBlob[19], AudioPowerOffBlob[20]];
  }


  /** A command blob: 33 ASCII digits, opaque to the transport. */
  type Blob = s: seq<Byte> | |s| == CommandLength && AllDigits(s)
    witness Digits("000000000000000000000000000000000")

  const VolumeDownBlob: Blob := Digits("040255010010701001100000000000000")
  const VolumeUpBlob: Blob := Digits("040255010010701000096000000000000")
  const AudioAuxBlob: Blob := Digits("040255010010701001131000000000000")
  const AudioNextBlob: Blob := Digits("040255010010701001052000000000000")
  const AudioPrevBlob: Blob := Digits("040255010010701001050000000000000")
  const AudioPauseBlob: Blob := Digits("040255010010701001054000000000000")
  const AudioPlayBlob: Blob := Digits("040255010010701001053000000000000")
  const ATape2Blob: Blob := Digits("040255010010701001148000000000000")
  const AudioPowerOffBlob: Blob := Digits("040255010010701001012000000000000")

  // ---------------------------------------------------------------------
  // Checksum and encoder

  /** Python's `sum(c for c in msg)` over a byte string. */
  function Sum(s: seq<Byte>): nat {
    SumOfFirst(s, |s|)
  }

  /** The sum of the first n bytes of s. */
  function SumOfFirst(s: seq<Byte>, n: nat): nat
    requires n <= |s|
  {
    if n == 0 then 0 else SumOfFirst(s, n - 1) + s[n - 1]
  }

  /** The checksum of a message: its byte sum mod 256 as three zero-padded
      ASCII digits, "000" to "255". */
  function Checksum(msg: seq<Byte>): (r: seq<Byte>)
    ensures |r| == 3 && AllDigits(r)
    ensures DigitsValue(r) == Sum(msg) % 256
    ensures 48 <= r[0] <= 50
  {
    ThreeDigits(Sum(msg) % 256)
  }

  /** A frame from `from` to `to`: '<', the addresses, the payload, the
      repeat count, the magic suffix, the checksum of everything from the
      destination through the suffix, and '>'. */
  function Frame(to: seq<Byte>, from: seq<Byte>, payload: seq<Byte>, repeatCount: nat): (f: seq<Byte>)
    requires |to| == 2 && |from| == 2 && repeatCount < 1000
    ensures |f| == 15 + |payload|
    ensures f[0] == StartOfTransmission && f[14 + |payload|] == EndOfTransmission
    ensures f[1..3] == to && f[3..5] == from && f[5..5 + |payload|] == payload
    ensures f[5 + |payload|..8 + |payload|] == ThreeDigits(repeatCount)
    ensures f[8 + |payload|..11 + |payload|] == MagicSuffix
    ensures f[11 + |payload|..14 + |payload|] == Checksum(f[1..11 + |payload|])
  {
    var n := |payload|;
    var msg := to + from + payload + ThreeDigits(repeatCount) + MagicSuffix;
    var f := [StartOfTransmission] + msg + Checksum(msg) + [EndOfTransmission];
    assert f[1..11 + n] == msg;
    assert f[11 + n..14 + n] == Checksum(msg);
    assert f[1..3] == msg[..2] == to;
    assert f[3..5] == msg[2..4] == from;
    assert f[5..5 + n] == msg[4..4 + n] == payload;
    assert f[5 + n..8 + n] == msg[4 + n..7 + n] == ThreeDigits(repeatCount);
    assert f[8 + n..11 + n] == msg[7 + n..] == MagicSuffix;
    f
  }

  /** The frame `write_message_to_lintronic` sends: addressed to the
      amplifier ("01") from us ("00"). Every frame is 48 bytes long. */
  function EncodeFrame(cmd: BeoCommand, repeatCount: nat): (f: seq<Byte>)
    requires repeatCount < 1000
    ensures |f| == 15 + |cmd.Value()| == 48
    ensures f[0] == StartOfTransmission && f[47] == EndOfTransmission
    ensures f[1..3] == LintronicAddress && f[3..5] == OurAddress
    ensures f[5..38] == cmd.Value()
    ensures AllDigits(f[38..41]) && DigitsValue(f[38..41]) == repeatCount
    ensures f[41..44] == MagicSuffix
    ensures AllDigits(f[44..47]) && DigitsValue(f[44..47]) == Sum(f[1..44]) % 256
  {
    Frame(LintronicAddress, OurAddress, cmd.Value(), repeatCount)
  }

  /** Inside an encoded frame only the first byte is '<' and only the last
      is '>': the frame is delimited unambiguously. */
  lemma FrameDelimiters(cmd: BeoCommand, repeatCount: nat)
    requires repeatCount < 1000
    ensures forall i | 1 <= i < 47 :: IsDigit(EncodeFrame(cmd, repeatCount)[i])
  {
    FrameDigits(LintronicAddress, OurAddress, cmd.Value(), repeatCount);
  }

  /** Between its delimiters, a frame of digit addresses and a digit
      payload is all digits. */
  lemma FrameDigits(to: seq<Byte>, from: seq<Byte>, payload: seq<Byte>, repeatCount: nat)
    requires |to| == 2 && |from| == 2 && repeatCount < 1000
    requires AllDigits(to) && AllDigits(from) && AllDigits(payload)
    ensures forall i | 1 <= i < 14 + |payload| :: IsDigit(Frame(to, from, payload, repeatCount)[i])
  {
    var n := |payload|;
    var msg := to + from + payload + ThreeDigits(repeatCount) + MagicSuffix;
    AllDigitsAppend(to, from);
    AllDigitsAppend(to + from, payload);
    AllDigitsAppend(to + from + payload, ThreeDigits(repeatCount));
    AllDigitsAppend(to + from + payload + ThreeDigits(repeatCount), MagicSuffix);
    var f := Frame(to, from, payload, repeatCount);
    forall i | 1 <= i < 14 + n ensures IsDigit(f[i]) {
      if i < 11 + n {
        assert f[i] == f[1..11 + n][i - 1] == msg[i - 1];
      } else {
        assert f[i] == f[11 + n..14 + n][i - 11 - n];
      }
    }
  }

  /** Digit strings side by side are a digit string. */
  lemma AllDigitsAppend(a: seq<Byte>, b: seq<Byte>)
    requires AllDigits(a) && AllDigits(b)
    ensures AllDigits(a + b)
  {
    forall i | 0 <= i < |a + b| ensures IsDigit((a + b)[i]) {
      if i >= |a| {
        assert (a + b)[i] == b[i - |a|];
      }
    }
  }

  // ---------------------------------------------------------------------
  // Python slicing and byte search

  /** A Python slice bound: negative bounds count from the end, and the
      result is clamped to 0..len. */
  function SliceBound(i: int, len: nat): (k: nat)
    ensures k <= len
  {
    if i < 0 then (if i + len < 0 then 0 else i + len) else if i > len then len else i
  }

  /** Python's `t[:end]`: a prefix of t, cut at the clamped end bound. */
  function PyPrefix<T>(t: seq<T>, end: int): (r: seq<T>)
    ensures r <= t && |r| == SliceBound(end, |t|)
  {
    t[..SliceBound(end, |t|)]
  }

  /** Python's `t[start:end]`: the elements from the clamped start bound up
      to the clamped end bound, or none when the bounds cross. */
  function PySlice<T>(t: seq<T>, start: int, end: int): (r: seq<T>)
    ensures var lo, hi := SliceBound(start, |t|), SliceBound(end, |t|);
            |r| == (if lo < hi then hi - lo else 0) &&
            forall i | 0 <= i < |r| :: r[i] == t[lo + i]
  {
    var lo, hi := SliceBound(start, |t|), SliceBound(end, |t|);
    seq(if lo < hi then hi - lo else 0, i requires 0 <= i < hi - lo => t[lo + i])
  }

  /** A prefix of a slice is a slice of the original. */
  lemma PrefixOfSlice(s: seq<Byte>, a: nat, b: nat, j: nat)
    requires a <= b <= |s| && j <= b - a
    ensures s[a..b][..j] == s[a..a + j]
  {
    forall k | 0 <= k < j ensures s[a..b][..j][k] == s[a + k] {
    }
  }

  /** A slice of a slice is a slice of the original. */
  lemma SliceOfSlice(s: seq<Byte>, a: nat, b: nat, i: nat, j: nat)
    requires a <= b <= |s| && i <= j <= b - a
    ensures s[a..b][i..j] == s[a + i..a + j]
  {
    forall k | 0 <= k < j - i ensures s[a..b][i..j][k] == s[a + i + k] {
    }
  }

  /** A Python slice whose bounds do not cross is an ordinary slice. */
  lemma PySliceWithin<T>(t: seq<T>, start: int, end: int)
    requires SliceBound(start, |t|) <= SliceBound(end, |t|)
    ensures PySlice(t, start, end) == t[SliceBound(start, |t|)..SliceBound(end, |t|)]
  {
  }

  /** The position of the first b in s at or after `from`, if any. */
  function FindByte(s: seq<Byte>, b: Byte, from: nat): (r: Option<nat>)
    requires from <= |s|
    ensures r.Some? ==> from <= r.value < |s| && s[r.value] == b
    ensures forall j | from <= j < (if r.Some? then r.value else |s|) :: s[j] != b
    decreases |s| - from
  {
    if from == |s| then None
    else if s[from] == b then Some(from)
    else FindByte(s, b, from + 1)
  }

  /** The first occurrence is unique: a position holding b with no b
      between `from` and it is the one FindByte returns. */
  lemma FindByteFirst(s: seq<Byte>, b: Byte, from: nat, k: nat)
    requires from <= k < |s| && s[k] == b
    requires forall j | from <= j < k :: s[j] != b
    ensures FindByte(s, b, from) == Some(k)
  {
  }

  /** Skipping bytes other than b does not change where the next b is. */
  lemma FindByteSkip(s: seq<Byte>, b: Byte, p: nat, q: nat)
    requires p <= q <= |s|
    requires forall j | p <= j < q :: s[j] != b
    ensures FindByte(s, b, p) == FindByte(s, b, q)
  {
  }

  // ---------------------------------------------------------------------
  // Decoder

  /** What `handle_incoming_message` does with one frame: the three logged
      rejections, and the accept branch that logs the command and data. */
  datatype Received =
    | NotAddressedToUs(to: seq<Byte>)
    | NotFromLintronic(from: seq<Byte>)
    | InvalidChecksum(got: seq<Byte>, expected: seq<Byte>)
    | Accepted(cmd: seq<Byte>, data: seq<Byte>)

  /** The outcome of handling one frame and the stream position after it. */
  datatype Step = Step(received: Received, next: nat)

  /** The checksum test of `handle_incoming_message` on the bytes read
      after the 3-byte command up to and including '>' (`tail`): the data is
      `tail[:-4]`, the received checksum `tail[checksumStart:-1]`, and the
      expected checksum is computed over the addresses, the command and the
      data. The code takes `checksumStart` = -3. */
  function CheckFrame(to: seq<Byte>, from: seq<Byte>, cmd: seq<Byte>, tail: seq<Byte>, checksumStart: int): (r: Received)
    ensures r.InvalidChecksum? || r == Accepted(cmd, PyPrefix(tail, -4))
    ensures -3 <= checksumStart < 0 ==> r.InvalidChecksum?
  {
    var data := PyPrefix(tail, -4);
    var checksum := PySlice(tail, checksumStart, -1);
    var expected := Checksum(to + from + cmd + data);
    if checksum != expected then InvalidChecksum(checksum, expected)
    else Accepted(cmd, data)
  }

  /** One frame read from position p of the stream s (just after a '<'),
      with the received checksum sliced from `checksumStart`. None: the
      stream ends before the frame is complete, so the reader raises. */
  function Decode(s: seq<Byte>, p: nat, checksumStart: int): (r: Option<Step>)
    requires p <= |s|
    ensures r.Some? ==> p + 2 <= r.value.next <= |s|
    ensures r.Some? && -3 <= checksumStart < 0 ==> !r.value.received.Accepted?
  {
    if p + 2 > |s| then None
    else if s[p] != 48 || s[p + 1] != 48 then Some(Step(NotAddressedToUs(s[p..p + 2]), p + 2))
    else if p + 4 > |s| then None
    else if s[p + 2] != 48 || s[p + 3] != 49 then Some(Step(NotFromLintronic(s[p + 2..p + 4]), p + 4))
    else if p + 7 > |s| then None
    else match FindByte(s, EndOfTransmission, p + 7)
      case None => None
      case Some(e) =>
        Some(Step(CheckFrame(OurAddress, LintronicAddress, s[p + 4..p + 7], s[p + 7..e + 1], checksumStart), e + 1))
  }

  /** `handle_incoming_message` as written, on the stream s from position p.
      No frame is ever accepted. */
  function Handle(s: seq<Byte>, p: nat): (r: Option<Step>)
    requires p <= |s|
    ensures r.Some? ==> p + 2 <= r.value.next <= |s|
    ensures r.Some? ==> !r.value.received.Accepted?
  {
    Decode(s, p, -3)
  }

  /** With both addresses right, the verdict is that of the command and
      tail that follow, or None when they are cut short. */
  lemma HandleAfterAddresses(s: seq<Byte>, p: nat)
    requires p + 4 <= |s| && s[p..p + 2] == OurAddress && s[p + 2..p + 4] == LintronicAddress
    ensures p + 7 > |s| ==> Handle(s, p) == None
    ensures p + 7 <= |s| && FindByte(s, EndOfTransmission, p + 7).None? ==> Handle(s, p) == None
    ensures p + 7 <= |s| && FindByte(s, EndOfTransmission, p + 7).Some? ==>
              var e := FindByte(s, EndOfTransmission, p + 7).value;
              Handle(s, p) == Some(Step(CheckFrame(OurAddress, LintronicAddress, s[p + 4..p + 7], s[p + 7..e + 1], -3), e + 1))
  {
    AddressBytes(s, p);
  }

  /** The two addresses, byte by byte, as the decoder tests them. */
  lemma AddressBytes(s: seq<Byte>, p: nat)
    requires p + 4 <= |s| && s[p..p + 2] == OurAddress && s[p + 2..p + 4] == LintronicAddress
    ensures s[p] == 48 && s[p + 1] == 48 && s[p + 2] == 48 && s[p + 3] == 49
  {
    assert s[p] == s[p..p + 2][0] && s[p + 1] == s[p..p + 2][1];
    assert s[p + 2] == s[p + 2..p + 4][0] && s[p + 3] == s[p + 2..p + 4][1];
  }

  /** Once the '>' ending a frame to us from the amplifier is found at e,
      the frame's verdict is the checksum test on the bytes after the
      command up to e. */
  lemma HandleComplete(s: seq<Byte>, p: nat, e: nat)
    requires p + 7 <= |s| && s[p..p + 2] == OurAddress && s[p + 2..p + 4] == LintronicAddress
    requires FindByte(s, EndOfTransmission, p + 7) == Some(e)
    ensures Handle(s, p) == Some(Step(CheckFrame(OurAddress, LintronicAddress, s[p + 4..p + 7], s[p + 7..e + 1], -3), e + 1))
  {
    AddressBytes(s, p);
  }

  /** A frame whose destination is not "00" is rejected right after the two
      address bytes, whatever follows. */
  lemma RejectsForeignDestination(s: seq<Byte>, p: nat)
    requires p + 2 <= |s| && s[p..p + 2] != OurAddress
    ensures Handle(s, p) == Some(Step(NotAddressedToUs(s[p..p + 2]), p + 2))
  {
  }

  /** A frame to us whose source is not "01" is rejected right after the
      four address bytes. */
  lemma RejectsForeignSource(s: seq<Byte>, p: nat)
    requires p + 4 <= |s| && s[p..p + 2] == OurAddress && s[p + 2..p + 4] != LintronicAddress
    ensures Handle(s, p) == Some(Step(NotFromLintronic(s[p + 2..p + 4]), p + 4))
  {
  }

  /** A frame to us cut short inside its source address yields nothing. */
  lemma StopsInSource(s: seq<Byte>, p: nat)
    requires p + 2 <= |s| < p + 4 && s[p..p + 2] == OurAddress
    ensures Handle(s, p) == None
  {
  }

  /** With both addresses right and the frame ending at the '>' at e, the
      expected checksum is computed over everything from the destination up
      to the last three bytes before '>' (so it covers the repeat count and
      magic suffix), while the bytes compared with it are only the two just
      before '>'. The frame is rejected either way. When fewer than four
      bytes follow the command, the data is empty, the expected checksum
      covers only the addresses and the command, and fewer than two bytes
      are compared. */
  lemma ChecksumCoverage(s: seq<Byte>, p: nat, e: nat)
    requires p + 7 <= e < |s| && s[e] == EndOfTransmission
    requires forall j | p + 7 <= j < e :: s[j] != EndOfTransmission
    requires s[p..p + 2] == OurAddress && s[p + 2..p + 4] == LintronicAddress
    ensures var dataEnd := if e - 3 < p + 7 then p + 7 else e - 3;
            var gotStart := if e - 2 < p + 7 then p + 7 else e - 2;
            Handle(s, p) == Some(Step(InvalidChecksum(s[gotStart..e], Checksum(s[p..dataEnd])), e + 1))
  {
    FindByteFirst(s, EndOfTransmission, p + 7, e);
    HandleComplete(s, p, e);
    CheckFrameCoverage(s, p, e);
  }

  /** The checksum test on the frame from p to the '>' at e: the expected
      checksum covers the stream from the destination to three bytes
      before '>' (never before the data), the received one is the at most
      two bytes before '>'. */
  lemma CheckFrameCoverage(s: seq<Byte>, p: nat, e: nat)
    requires p + 7 <= e < |s|
    requires s[p..p + 2] == OurAddress && s[p + 2..p + 4] == LintronicAddress
    ensures var dataEnd := if e - 3 < p + 7 then p + 7 else e - 3;
            var gotStart := if e - 2 < p + 7 then p + 7 else e - 2;
            CheckFrame(OurAddress, LintronicAddress, s[p + 4..p + 7], s[p + 7..e + 1], -3) ==
              InvalidChecksum(s[gotStart..e], Checksum(s[p..dataEnd]))
  {
    var dataEnd := if e - 3 < p + 7 then p + 7 else e - 3;
    var gotStart := if e - 2 < p + 7 then p + 7 else e - 2;
    var tail := s[p + 7..e + 1];
    var n := |tail|;
    var data := PyPrefix(tail, -4);
    PrefixOfSlice(s, p + 7, e + 1, dataEnd - (p + 7));
    assert data == s[p + 7..dataEnd];
    var got := PySlice(tail, -3, -1);
    PySliceWithin(tail, -3, -1);
    SliceOfSlice(s, p + 7, e + 1, gotStart - (p + 7), n - 1);
    assert got == s[gotStart..e];
    SliceSplit(s, p, p + 2, dataEnd);
    SliceSplit(s, p + 2, p + 4, dataEnd);
    SliceSplit(s, p + 4, p + 7, dataEnd);
    assert OurAddress + LintronicAddress + s[p + 4..p + 7] + data == s[p..dataEnd];
  }

  /** A slice is its two halves side by side. */
  lemma SliceSplit(s: seq<Byte>, a: nat, b: nat, c: nat)
    requires a <= b <= c <= |s|
    ensures s[a..c] == s[a..b] + s[b..c]
  {
  }

  /** A frame we send, fed straight back to the decoder, is rejected at the
      destination check: it is addressed to "01", not to us. */
  lemma EncodedFrameRejected(cmd: BeoCommand, repeatCount: nat)
    requires repeatCount < 1000
    ensures Handle(EncodeFrame(cmd, repeatCount), 1) == Some(Step(NotAddressedToUs(LintronicAddress), 3))
  {
  }

  /** Hypothetical, NOT the code: the decoder as evidently intended, taking
      the three checksum bytes with `[-4:-1]` instead of `[-3:-1]`. */
  function IntendedHandle(s: seq<Byte>, p: nat): (r: Option<Step>)
    requires p <= |s|
    ensures r.Some? ==> p + 2 <= r.value.next <= |s|
  {
    Decode(s, p, -4)
  }

  /** Hypothetical round trip: a frame the amplifier would send (our own
      encoding with the two addresses swapped) is accepted by the intended
      decoder, which returns the first three payload bytes as the command
      and the rest of the payload, the repeat count and the suffix as data. */
  lemma IntendedRoundTrip(cmd: BeoCommand, repeatCount: nat)
    requires repeatCount < 1000
    ensures IntendedHandle(Frame(OurAddress, LintronicAddress, cmd.Value(), repeatCount), 1) ==
              Some(Step(Accepted(cmd.Value()[..3], cmd.Value()[3..] + ThreeDigits(repeatCount) + MagicSuffix), 48))
  {
    var v := cmd.Value();
    var msg := OurAddress + LintronicAddress + v + ThreeDigits(repeatCount) + MagicSuffix;
    assert msg[4..7] == v[..3];
    assert msg[7..] == v[3..] + ThreeDigits(repeatCount) + MagicSuffix;
    IntendedAccepts(msg);
  }

  /** The intended decoder accepts any 43-byte message addressed to us from
      the amplifier whose bytes after the command are digits, once it is
      framed with its checksum. */
  lemma IntendedAccepts(msg: seq<Byte>)
    requires |msg| == 43 && msg[..2] == OurAddress && msg[2..4] == LintronicAddress
    requires AllDigits(msg[7..])
    ensures IntendedHandle([StartOfTransmission] + msg + Checksum(msg) + [EndOfTransmission], 1) ==
              Some(Step(Accepted(msg[4..7], msg[7..]), 48))
  {
    var c := Checksum(msg);
    var f := [StartOfTransmission] + msg + c + [EndOfTransmission];
    FramedParts(msg, c);
    PrefixOfSlice(f, 1, 44, 2);
    SliceOfSlice(f, 1, 44, 2, 4);
    SliceOfSlice(f, 1, 44, 4, 7);
    SliceOfSlice(f, 1, 44, 7, 43);
    forall j | 8 <= j < 47 ensures f[j] != EndOfTransmission {
      if j < 44 {
        assert f[j] == f[8..44][j - 8] == msg[7..][j - 8];
      } else {
        assert f[j] == f[44..47][j - 44] == c[j - 44];
      }
    }
    FindByteFirst(f, EndOfTransmission, 8, 47);
    IntendedComplete(f, 1, 47);
    IntendedCheckFrame(f, 1, 47);
  }

  /** Where the pieces of a framed message lie: the message right after
      '<', its checksum right after the message, '>' last. */
  lemma FramedParts(msg: seq<Byte>, c: seq<Byte>)
    ensures var f := [StartOfTransmission] + msg + c + [EndOfTransmission];
            |f| == |msg| + |c| + 2 && f[|msg| + |c| + 1] == EndOfTransmission &&
            f[1..|msg| + 1] == msg && f[|msg| + 1..|msg| + |c| + 1] == c
  {
    var f := [StartOfTransmission] + msg + c + [EndOfTransmission];
    assert f[1..|msg| + 1] == msg by {
      forall i | 0 <= i < |msg| ensures f[1 + i] == msg[i] {
      }
    }
    assert f[|msg| + 1..|msg| + |c| + 1] == c by {
      forall i | 0 <= i < |c| ensures f[|msg| + 1 + i] == c[i] {
      }
    }
  }

  /** The intended decoder on a frame to us from the amplifier whose '>'
      is at e: the checksum test with `[-4:-1]` on the bytes after the
      command. */
  lemma IntendedComplete(s: seq<Byte>, p: nat, e: nat)
    requires p + 7 <= |s| && s[p..p + 2] == OurAddress && s[p + 2..p + 4] == LintronicAddress
    requires FindByte(s, EndOfTransmission, p + 7) == Some(e)
    ensures IntendedHandle(s, p) == Some(Step(CheckFrame(OurAddress, LintronicAddress, s[p + 4..p + 7], s[p + 7..e + 1], -4), e + 1))
  {
    AddressBytes(s, p);
  }

  /** The intended checksum test passes when the three bytes before the
      '>' at e are the checksum of the stream from the destination up to
      them; the data is then everything between the command and the
      checksum. */
  lemma IntendedCheckFrame(s: seq<Byte>, p: nat, e: nat)
    requires p + 10 <= e < |s|
    requires s[p..p + 2] == OurAddress && s[p + 2..p + 4] == LintronicAddress
    requires s[e - 3..e] == Checksum(s[p..e - 3])
    ensures CheckFrame(OurAddress, LintronicAddress, s[p + 4..p + 7], s[p + 7..e + 1], -4) ==
              Accepted(s[p + 4..p + 7], s[p + 7..e - 3])
  {
    var tail := s[p + 7..e + 1];
    var n := |tail|;
    var data := PyPrefix(tail, -4);
    PrefixOfSlice(s, p + 7, e + 1, n - 4);
    assert data == s[p + 7..e - 3];
    var got := PySlice(tail, -4, -1);
    PySliceWithin(tail, -4, -1);
    SliceOfSlice(s, p + 7, e + 1, n - 4, n - 1);
    assert got == s[e - 3..e];
    SliceSplit(s, p, p + 2, e - 3);
    SliceSplit(s, p + 2, p + 4, e - 3);
    SliceSplit(s, p + 4, p + 7, e - 3);
    assert OurAddress + LintronicAddress + s[p + 4..p + 7] + data == s[p..e - 3];
  }

  /** As written, the same frame is rejected: the two bytes taken as the
      checksum can never equal the three expected ones. */
  lemma AsWrittenRejectsIntendedFrame(cmd: BeoCommand, repeatCount: nat)
    requires repeatCount < 1000
    ensures var f := Frame(OurAddress, LintronicAddress, cmd.Value(), repeatCount);
            Handle(f, 1).Some? && Handle(f, 1).value.received.InvalidChecksum?
  {
    IntendedRoundTrip(cmd, repeatCount);
  }

  // ---------------------------------------------------------------------
  // Receive loop

  /** What `listen_for_incoming_messages` does with the stream from
      position p on: skip up to and including the next '<', handle one
      frame, and repeat until the stream ends. */
  function Listen(s: seq<Byte>, p: nat): (r: seq<Received>)
    requires p <= |s|
    ensures 3 * |r| <= |s| - p
    decreases |s| - p
  {
    match FindByte(s, StartOfTransmission, p)
    case None => []
    case Some(i) =>
      match Handle(s, i + 1)
      case None => []
      case Some(step) => [step.received] + Listen(s, step.next)
  }

  /** A frame, whatever its verdict, does not stop the loop: it goes on with
      the bytes after the frame. */
  lemma ListenContinuesAfterFrame(s: seq<Byte>, p: nat, i: nat, step: Step)
    requires p <= |s|
    requires FindByte(s, StartOfTransmission, p) == Some(i)
    requires Handle(s, i + 1) == Some(step)
    ensures Listen(s, p) == [step.received] + Listen(s, step.next)
  {
  }

  /** The loop ends, logging nothing more, when no '<' is left or the
      frame after it is cut short by the end of the stream. */
  lemma ListenStops(s: seq<Byte>, p: nat)
    requires p <= |s|
    requires FindByte(s, StartOfTransmission, p).None? ||
             Handle(s, FindByte(s, StartOfTransmission, p).value + 1).None?
    ensures Listen(s, p) == []
  {
  }

  /** Nothing the loop logs is ever an accepted command. */
  lemma {:induction false} ListenNeverAccepts(s: seq<Byte>, p: nat)
    requires p <= |s|
    ensures forall k | 0 <= k < |Listen(s, p)| :: !Listen(s, p)[k].Accepted?
    decreases |s| - p
  {
    match FindByte(s, StartOfTransmission, p)
    case None =>
    case Some(i) =>
      match Handle(s, i + 1)
      case None =>
      case Some(step) =>
        ListenNeverAccepts(s, step.next);
  }

  /** Bytes before the next '<' are discarded unread. */
  lemma ListenSkipsNoise(s: seq<Byte>, p: nat, q: nat)
    requires p <= q <= |s|
    requires forall j | p <= j < q :: s[j] != StartOfTransmission
    ensures Listen(s, p) == Listen(s, q)
  {
    FindByteSkip(s, StartOfTransmission, p, q);
    match FindByte(s, StartOfTransmission, q)
    case None =>
      ListenStops(s, p);
      ListenStops(s, q);
    case Some(i) =>
      match Handle(s, i + 1)
      case None =>
        ListenStops(s, p);
        ListenStops(s, q);
      case Some(step) =>
        ListenContinuesAfterFrame(s, p, i, step);
        ListenContinuesAfterFrame(s, q, i, step);
  }

  /** The amplifier echoing one of our own frames yields exactly one logged
      rejection (wrong destination), and the loop reads on to the end. */
  lemma ListenOwnFrame(cmd: BeoCommand, repeatCount: nat)
    requires repeatCount < 1000
    ensures Listen(EncodeFrame(cmd, repeatCount), 0) == [NotAddressedToUs(LintronicAddress)]
  {
    var f := EncodeFrame(cmd, repeatCount);
    FindByteFirst(f, StartOfTransmission, 0, 0);
    EncodedFrameRejected(cmd, repeatCount);
    ListenContinuesAfterFrame(f, 0, 0, Step(NotAddressedToUs(LintronicAddress), 3));
    FrameDelimiters(cmd, repeatCount);
    FindByteSkip(f, StartOfTransmission, 3, 48);
    assert Listen(f, 3) == [];
  }

  // ---------------------------------------------------------------------
  // The connection object

  /** One serial connection: the frames written so far, and the inbound
      bytes with a read cursor. */
  class LinTronicConnection {
    var sent: seq<seq<Byte>>
    const input: seq<Byte>
    var pos: nat

    ghost predicate Valid()
      reads this
    {
      pos <= |input|
    }

    constructor (input: seq<Byte>)
      ensures Valid() && sent == [] && this.input == input && pos == 0
    {
      sent := [];
      this.input := input;
      pos := 0;
    }

    /** `write_message_to_lintronic`: writes one encoded frame. */
    method WriteMessageToLintronic(cmd: BeoCommand, repeatCount: nat := 1)
      requires repeatCount < 1000
      modifies this`sent
      ensures sent == old(sent) + [EncodeFrame(cmd, repeatCount)]
    {
      var binaryRepeatCount := ThreeDigits(repeatCount);
      var msg := LintronicAddress + OurAddress + cmd.Value() + binaryRepeatCount + MagicSuffix;
      var checksum := Checksum(msg);
      var message := [StartOfTransmission] + msg + checksum + [EndOfTransmission];
      sent := sent + [message];
    }

    /** The reader's `readexactly(n)`; at the end of the stream it consumes
        what is left and yields None. */
    method ReadExactly(n: nat) returns (chunk: Option<seq<Byte>>)
      requires Valid()
      modifies this`pos
      ensures Valid()
      ensures old(pos) + n <= |input| ==> chunk == Some(input[old(pos)..old(pos) + n]) && pos == old(pos) + n
      ensures old(pos) + n > |input| ==> chunk == None && pos == |input|
    {
      if pos + n <= |input| {
        chunk := Some(input[pos..pos + n]);
        pos := pos + n;
      } else {
        chunk := None;
        pos := |input|;
      }
    }

    /** The reader's `readuntil(sep)`: the bytes up to and including the
        next sep; at the end of the stream it consumes what is left and
        yields None. */
    method ReadUntil(sep: Byte) returns (chunk: Option<seq<Byte>>)
      requires Valid()
      modifies this`pos
      ensures Valid()
      ensures chunk.None? <==> FindByte(input, sep, old(pos)).None?
      ensures chunk.None? ==> pos == |input|
      ensures chunk.Some? ==> FindByte(input, sep, old(pos)) == Some(pos - 1) && chunk.value == input[old(pos)..pos]
    {
      var i := pos;
      while i < |input| && input[i] != sep
        invariant pos <= i <= |input|
        invariant forall j | pos <= j < i :: input[j] != sep
      {
        i := i + 1;
      }
      if i == |input| {
        chunk := None;
        pos := |input|;
      } else {
        FindByteFirst(input, sep, pos, i);
        chunk := Some(input[pos..i + 1]);
        pos := i + 1;
      }
    }

    /** `handle_incoming_message`: reads one frame after its '<' and
        validates addresses and checksum. None: the stream ended. */
    method HandleIncomingMessage() returns (r: Option<Received>)
      requires Valid()
      modifies this`pos
      ensures Valid()
      ensures r.None? <==> Handle(input, old(pos)).None?
      ensures r.None? ==> pos == |input|
      ensures r.Some? ==> Handle(input, old(pos)) == Some(Step(r.value, pos))
    {
      ghost var p := pos;
      var toAddress := ReadExactly(2);
      if toAddress.None? {
        return None;
      }
      if toAddress.value != OurAddress {
        return Some(NotAddressedToUs(toAddress.value));
      }
      r := CheckSource();
    }

    /** The part of `handle_incoming_message` after the destination "00"
        was read: the source address, then the command and checksum. */
    method CheckSource() returns (r: Option<Received>)
      requires Valid() && 2 <= pos && input[pos - 2..pos] == OurAddress
      modifies this`pos
      ensures Valid()
      ensures r.None? <==> Handle(input, old(pos) - 2).None?
      ensures r.None? ==> pos == |input|
      ensures r.Some? ==> Handle(input, old(pos) - 2) == Some(Step(r.value, pos))
    {
      ghost var p := pos - 2;
      var fromAddress := ReadExactly(2);
      if fromAddress.None? {
        StopsInSource(input, p);
        return None;
      }
      if fromAddress.value != LintronicAddress {
        RejectsForeignSource(input, p);
        return Some(NotFromLintronic(fromAddress.value));
      }
      r := CheckBody();
    }

    /** The rest of `handle_incoming_message` once both addresses are right:
        read the command and the bytes up to and including '>', and test
        the checksum of the addresses, the command and the data. */
    method CheckBody() returns (r: Option<Received>)
      requires Valid() && 4 <= pos
      requires input[pos - 4..pos - 2] == OurAddress && input[pos - 2..pos] == LintronicAddress
      modifies this`pos
      ensures Valid()
      ensures r.None? <==> Handle(input, old(pos) - 4).None?
      ensures r.None? ==> pos == |input|
      ensures r.Some? ==> Handle(input, old(pos) - 4) == Some(Step(r.value, pos))
    {
      ghost var p := pos - 4;
      var cmd := ReadExactly(3);
      if cmd.None? {
        HandleAfterAddresses(input, p);
        return None;
      }
      var dataAndChecksum := ReadUntil(EndOfTransmission);
      if dataAndChecksum.None? {
        HandleAfterAddresses(input, p);
        return None;
      }
      HandleComplete(input, p, pos - 1);
      r := Some(CheckFrame(OurAddress, LintronicAddress, cmd.value, dataAndChecksum.value, -3));
    }

    /** One round of `listen_for_incoming_messages`: skip to the next '<'
        and handle the frame after it. None: the stream ended first. */
    method ReceiveNext() returns (r: Option<Received>)
      requires Valid()
      modifies this`pos
      ensures Valid()
      ensures r.None? ==> pos == |input| && Listen(input, old(pos)) == []
      ensures r.Some? ==> old(pos) < pos && Listen(input, old(pos)) == [r.value] + Listen(input, pos)
    {
      ghost var p := pos;
      var skipped := ReadUntil(StartOfTransmission);
      if skipped.None? {
        ListenStops(input, p);
        return None;
      }
      ghost var i := pos - 1;
      r := HandleIncomingMessage();
      if r.None? {
        ListenStops(input, p);
        return;
      }
      ListenContinuesAfterFrame(input, p, i, Step(r.value, pos));
    }

    /** `listen_for_incoming_messages`: the endless read loop, which ends
        only when the stream does. Returns what was logged per frame. */
    method ListenForIncomingMessages() returns (log: seq<Received>)
      requires Valid()
      modifies this`pos
      ensures Valid() && pos == |input|
      ensures log == Listen(input, old(pos))
    {
      log := [];
      while true
        invariant Valid()
        invariant Listen(input, old(pos)) == log + Listen(input, pos)
        decreases |input| - pos
      {
        var r := ReceiveNext();
        if r.None? {
          return;
        }
        log := log + [r.value];
      }
    }
  }
}
