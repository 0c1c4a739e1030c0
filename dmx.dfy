/** Output side of the light controller: colours are quantised to one byte
    per channel (a packet) and sent to an Enttec DMX USB Pro widget inside
    its "Output Only Send DMX Packet" message. The serial port is an
    abstract byte sink that records what is written to it. */
module Dmx {
  import opened Color

  /** A value that fits in one byte of a `bytearray`. */
  type byte = x: int | 0 <= x < 256

  datatype Option<T> = None | Some(value: T)

  datatype Result<T, E> = Ok(value: T) | Err(error: E)

  /** Start-of-message delimiter of a widget message. */
  const SOM: byte := 0x7E
  /** End-of-message delimiter of a widget message. */
  const EOM: byte := 0xE7
  /** The NULL START code of a DMX512 packet (ANSI E1.11, DMX512-A): the
      slot that precedes the channel data of an ordinary dimmer packet. */
  const SC: byte := 0x00
  /** Widget message label "Output Only Send DMX Packet". */
  const LABEL_OUTPUT_ONLY_SEND_DMX: byte := 0x06

  // ---------------------------------------------------------------------
  // Message framing

  /** Low byte of a payload size (`size & 0xFF`). */
  function LengthLo(size: nat): byte { size % 256 }

  /** High byte of a payload size (`(size >> 8) & 0xFF`); sizes of 65536 and
      more wrap around, as the program does not check them. */
  function LengthHi(size: nat): byte { (size / 256) % 256 }

  /** The 16-bit number two bytes denote when read low byte first. */
  function Word(lo: byte, hi: byte): nat { lo as int + 256 * hi as int }

  /** The two length bytes, read low byte first, give the size modulo 65536. */
  lemma LengthBytesDecode(size: nat)
    ensures Word(LengthLo(size), LengthHi(size)) == size % 65536
  {
    var q, r := size / 65536, size % 65536;
    assert size == 65536 * q + r;
    assert size / 256 == 256 * q + r / 256 by {
      assert size == 256 * (256 * q + r / 256) + r % 256;
    }
    assert (size / 256) % 256 == r / 256 by {
      assert r / 256 < 256;
    }
    assert size % 256 == r % 256 by {
      assert size == 256 * (256 * q + r / 256) + r % 256;
    }
  }

  /** A widget message: start byte, label, the payload size in two bytes
      (low byte first), the payload, and the end byte. */
  function Frame(lbl: byte, data: seq<byte>): (f: seq<byte>)
    ensures |f| == |data| + 5
    ensures f[0] == SOM && f[1] == lbl && f[|f| - 1] == EOM
    ensures Word(f[2], f[3]) == |data| % 65536
    ensures f[4..4 + |data|] == data
  {
    var header := [lbl, LengthLo(|data|), LengthHi(|data|)];
    LengthBytesDecode(|data|);
    var message := [SOM] + header + data + [EOM];
    assert message[4..4 + |data|] == data;
    message
  }

  /** Reads a widget message back: its label and payload, or None when the
      delimiters or the length field do not match. This is the receiving
      side's view of a message, used to state that framing loses nothing. */
  function Decode(f: seq<byte>): (r: Option<(byte, seq<byte>)>)
    ensures r.Some? ==> |f| >= 5 && |r.value.1| == Word(f[2], f[3])
  {
    if |f| < 5 || f[0] != SOM || f[|f| - 1] != EOM || |f| != Word(f[2], f[3]) + 5 then None
    else Some((f[1], f[4..|f| - 1]))
  }

  /** Every payload shorter than 65536 bytes comes back from its message unchanged. */
  lemma DecodeFrame(lbl: byte, data: seq<byte>)
    requires |data| < 65536
    ensures Decode(Frame(lbl, data)) == Some((lbl, data))
  {
    var f := Frame(lbl, data);
    assert f[4..|f| - 1] == data;
  }

  /** Conversely, every message that decodes is the frame of what it decodes to. */
  lemma FrameDecode(f: seq<byte>)
    requires Decode(f).Some?
    ensures Frame(Decode(f).value.0, Decode(f).value.1) == f
  {
    var lbl, data := f[1], f[4..|f| - 1];
    LengthField(|data|, f[2], f[3]);
    calc {
      Frame(lbl, data);
    ==
      [SOM] + [lbl, LengthLo(|data|), LengthHi(|data|)] + data + [EOM];
    ==
      [f[0], f[1], f[2], f[3]] + data + [f[|f| - 1]];
    ==
      f;
    }
  }

  /** The only byte pair that denotes a size below 65536 is its length field. */
  lemma LengthField(size: nat, lo: byte, hi: byte)
    requires Word(lo, hi) == size
    ensures lo == LengthLo(size) && hi == LengthHi(size)
  {
    assert size == 256 * hi as int + lo as int;
    assert size % 256 == lo as int && size / 256 == hi as int;
  }

  /** A payload of 65536 bytes or more gets a length field that does not
      match it: the message cannot be read back. */
  lemma FrameWrapsBeyond(lbl: byte, data: seq<byte>)
    requires |data| >= 65536
    ensures Decode(Frame(lbl, data)) == None
  {
  }

  // ---------------------------------------------------------------------
  // Packets

  /** Truncation toward zero of a real, as `int(x)` does for a float. */
  function Trunc(x: real): (t: int)
    ensures 0.0 <= x ==> t as real <= x < t as real + 1.0
    ensures x < 0.0 ==> t as real - 1.0 < x <= t as real
  {
    if 0.0 <= x then x.Floor else -((-x).Floor)
  }

  /** The byte value of one channel: the channel times 255, truncated. */
  function Quantize(x: real): int
  {
    Trunc(x * 255.0)
  }

  /** The channel gives a value that a `bytearray` accepts. */
  predicate ChannelFits(x: real) { 0 <= Quantize(x) < 256 }

  /** A channel fits in a byte exactly when it lies strictly between -1/255
      and 256/255; in particular every channel in [0, 1] fits, 0 giving 0 and
      1 giving 255. */
  lemma ChannelFitsRange(x: real)
    ensures ChannelFits(x) <==> -1.0 / 255.0 < x < 256.0 / 255.0
    ensures InUnit(x) ==> ChannelFits(x)
    ensures Quantize(0.0) == 0 && Quantize(1.0) == 255
  {
    var y := x * 255.0;
    assert Quantize(x) == Trunc(y);
    assert (-1.0 / 255.0 < x < 256.0 / 255.0) <==> (-1.0 < y < 256.0);
  }

  /** Every channel of the colour fits in a byte. */
  predicate ColorFits(c: Rgb) { ChannelFits(c.r) && ChannelFits(c.g) && ChannelFits(c.b) }

  /** Every colour of the list fits. */
  predicate PacketFits(colors: seq<Rgb>) { forall i :: 0 <= i < |colors| ==> ColorFits(colors[i]) }

  /** The three bytes of one colour, in r, g, b order. */
  function ColorBytes(c: Rgb): seq<int>
  {
    [Quantize(c.r), Quantize(c.g), Quantize(c.b)]
  }

  /** The channel data of a packet: the bytes of each colour in turn. */
  function PacketBytes(colors: seq<Rgb>): seq<int>
  {
    if colors == [] then [] else ColorBytes(colors[0]) + PacketBytes(colors[1..])
  }

  /** Three bytes per colour; colour i occupies offsets 3i, 3i+1 and 3i+2,
      channel k at offset 3i+k. */
  lemma {:induction false} PacketBytesAt(colors: seq<Rgb>, i: nat, k: nat)
    requires i < |colors| && k < 3
    ensures |PacketBytes(colors)| == 3 * |colors|
    ensures PacketBytes(colors)[3 * i + k] == Quantize(Channel(colors[i], k))
  {
    if i == 0 {
      PacketBytesLength(colors[1..]);
    } else {
      PacketBytesAt(colors[1..], i - 1, k);
      assert colors[1..][i - 1] == colors[i];
    }
  }

  lemma {:induction false} PacketBytesLength(colors: seq<Rgb>)
    ensures |PacketBytes(colors)| == 3 * |colors|
  {
    if colors != [] {
      PacketBytesLength(colors[1..]);
    }
  }

  /** The channel data computed for a list of colours. */
  datatype Packet = Packet(data: seq<byte>)

  /** Why a packet could not be built: the byte at this offset of the data
      has a value outside 0..255 (the `ValueError` of `bytearray.append`). */
  datatype PacketError = ByteOutOfRange(offset: nat, value: int)

  /** Builds a packet by appending the three bytes of each colour in turn.
      It fails at the first byte that does not fit, and names that byte. */
  method NewPacket(colors: seq<Rgb>) returns (r: Result<Packet, PacketError>)
    ensures r.Ok? <==> PacketFits(colors)
    ensures r.Ok? ==> r.value.data == PacketBytes(colors)
    ensures r.Err? ==> var e := r.error;
      e.offset < |PacketBytes(colors)| && PacketBytes(colors)[e.offset] == e.value &&
      !(0 <= e.value < 256) &&
      forall j :: 0 <= j < e.offset ==> 0 <= PacketBytes(colors)[j] < 256
  {
    PacketBytesLength(colors);
    var data: seq<byte> := [];
    var i := 0;
    while i < |colors|
      invariant 0 <= i <= |colors|
      invariant |data| == 3 * i
      invariant forall j :: 0 <= j < |data| ==> data[j] == PacketBytes(colors)[j]
      invariant PacketFits(colors[..i])
    {
      var color := colors[i];
      PacketBytesAt(colors, i, 0);
      PacketBytesAt(colors, i, 1);
      PacketBytesAt(colors, i, 2);
      var red := Quantize(color.r);
      if !(0 <= red < 256) {
        return Err(ByteOutOfRange(|data|, red));
      }
      data := data + [red];
      var green := Quantize(color.g);
      if !(0 <= green < 256) {
        return Err(ByteOutOfRange(|data|, green));
      }
      data := data + [green];
      var blue := Quantize(color.b);
      if !(0 <= blue < 256) {
        return Err(ByteOutOfRange(|data|, blue));
      }
      data := data + [blue];
      assert colors[..i + 1] == colors[..i] + [color];
      i := i + 1;
    }
    assert colors[..i] == colors;
    r := Ok(Packet(data));
  }

  /** Colours whose channels are all in [0, 1] (for instance blends of such
      colours) always make a packet. */
  lemma InGamutFits(colors: seq<Rgb>)
    requires forall i :: 0 <= i < |colors| ==> InGamut(colors[i])
    ensures PacketFits(colors)
  {
    forall i | 0 <= i < |colors| ensures ColorFits(colors[i]) {
      ChannelFitsRange(colors[i].r);
      ChannelFitsRange(colors[i].g);
      ChannelFitsRange(colors[i].b);
    }
  }

  /** A blend of two in-gamut colours by a fraction in [0, 1] fits in a packet. */
  lemma BlendFits(color1: Rgb, color2: Rgb, f: real)
    requires InGamut(color1) && InGamut(color2) && 0.0 <= f <= 1.0
    ensures ColorFits(Blend(color1, color2, f))
  {
    InGamutFits([Blend(color1, color2, f)]);
  }

  /** The named colours give full-on and full-off bytes. */
  lemma NamedColorBytes()
    ensures ColorBytes(White) == [255, 255, 255] && ColorBytes(Black) == [0, 0, 0]
    ensures ColorBytes(Red) == [255, 0, 0] && ColorBytes(Green) == [0, 255, 0] && ColorBytes(Blue) == [0, 0, 255]
  {
    ChannelFitsRange(0.0);
  }

  // ---------------------------------------------------------------------
  // DMX output

  /** The message that sends a packet as a DMX512 universe: the NULL START
      code followed by the packet's channel data, under the "Output Only
      Send DMX Packet" label. */
  function DmxFrame(packet: Packet): seq<byte>
  {
    Frame(LABEL_OUTPUT_ONLY_SEND_DMX, [SC] + packet.data)
  }

  /** Layout of a DMX message: the five bytes of header with the start
      code, the packet's channel data, the end byte; the length field counts
      the start code and the channel data, modulo 65536. */
  lemma DmxFrameLayout(packet: Packet)
    ensures var f := DmxFrame(packet);
      |f| == |packet.data| + 6 &&
      f[..5] == [SOM, LABEL_OUTPUT_ONLY_SEND_DMX, LengthLo(|packet.data| + 1), LengthHi(|packet.data| + 1), SC] &&
      f[5..|f| - 1] == packet.data && f[|f| - 1] == EOM &&
      Word(f[2], f[3]) == (|packet.data| + 1) % 65536
  {
    var payload := [SC] + packet.data;
    var f := DmxFrame(packet);
    assert f == [SOM, LABEL_OUTPUT_ONLY_SEND_DMX, LengthLo(|payload|), LengthHi(|payload|)] + payload + [EOM];
    assert f[5..|f| - 1] == packet.data;
  }

  /** The message for the packet of n colours is 3n + 6 bytes long, and
      carries the colours' bytes right after the start code. */
  lemma DmxFrameOfColors(colors: seq<Rgb>, packet: Packet)
    requires packet.data == PacketBytes(colors)
    ensures |DmxFrame(packet)| == 3 * |colors| + 6
    ensures DmxFrame(packet)[4] == SC && DmxFrame(packet)[5..3 * |colors| + 5] == PacketBytes(colors)
  {
    PacketBytesLength(colors);
    DmxFrameLayout(packet);
  }

  // ---------------------------------------------------------------------
  // Rotation

  /** The position a Python slice bound n denotes in a list of the given length. */
  function SliceBound(n: int, length: nat): (k: nat)
    ensures k <= length
    ensures 0 <= n <= length ==> k == n
    ensures n < 0 && 0 <= n + length as int ==> k as int == n + length as int
    ensures n > length ==> k == length
    ensures n + length as int < 0 ==> k == 0
  {
    if n < 0 then (if length + n < 0 then 0 else length + n)
    else if n > length then length
    else n
  }

  /** `l[n:] + l[:n]`: the list turned left by n places. */
  function Rotate<T>(l: seq<T>, n: int): (r: seq<T>)
    ensures |r| == |l|
    ensures multiset(r) == multiset(l)
  {
    var k := SliceBound(n, |l|);
    assert l == l[..k] + l[k..];
    l[k..] + l[..k]
  }

  /** For a shift between -|l| and |l|, index i of the result holds the
      element n places further on, counting around the end. */
  lemma RotateAt<T>(l: seq<T>, n: int, i: nat)
    requires -|l| <= n <= |l| && i < |l|
    ensures Rotate(l, n)[i] == l[(i + n) % |l|]
  {
    var k := SliceBound(n, |l|);
    if i < |l| - k {
      assert Rotate(l, n)[i] == l[i + k];
      ModWrap(i + n, |l|);
    } else {
      assert Rotate(l, n)[i] == l[i + k - |l|];
      ModWrap(i + n, |l|);
    }
  }

  /** Reduction modulo m of a number less than one turn away from [0, m). */
  lemma ModWrap(x: int, m: int)
    requires 0 < m && -m <= x < 2 * m
    ensures x % m == if x < 0 then x + m else if x < m then x else x - m
  {
    var q, r := x / m, x % m;
    assert x == m * q + r && 0 <= r < m;
  }

  /** A shift of 0, or of |l| or more either way, leaves the list as it is:
      shifts outside -|l|..|l| are clamped rather than taken modulo |l|. */
  lemma RotateIdentity<T>(l: seq<T>, n: int)
    requires n == 0 || n >= |l| || n <= -|l|
    ensures Rotate(l, n) == l
  {
  }

  /** Turning left by n and then by |l| - n gives the list back. */
  lemma RotateInverse<T>(l: seq<T>, n: int)
    requires 0 <= n <= |l|
    ensures Rotate(Rotate(l, n), |l| - n) == l
  {
    var r := Rotate(l, n);
    assert r == l[n..] + l[..n];
    assert r[|l| - n..] == l[..n];
    assert r[..|l| - n] == l[n..];
    assert l == l[..n] + l[n..];
  }

  // ---------------------------------------------------------------------
  // The widget and its serial port

  /** Stand-in for the open serial port: it keeps every byte written to it. */
  class ByteSink {
    var written: seq<byte>

    constructor ()
      ensures written == []
    {
      written := [];
    }

    method Write(message: seq<byte>)
      modifies this
      ensures written == old(written) + message
    {
      written := written + message;
    }
  }

  /** The USB DMX Pro widget, talking through a serial port. */
  class Widget {
    const serialPort: ByteSink

    constructor (serialPort: ByteSink)
      ensures this.serialPort == serialPort
    {
      this.serialPort := serialPort;
    }

    /** Sends one widget message: the header is built from the label and the
        two length bytes, wrapped in the delimiters, and written in one go. */
    method Transmit(lbl: byte, data: seq<byte>)
      modifies serialPort
      ensures serialPort.written == old(serialPort.written) + Frame(lbl, data)
    {
      var dataSize := |data|;
      var header := [lbl];
      header := header + [LengthLo(dataSize)];
      header := header + [LengthHi(dataSize)];
      var message := [SOM] + header + data + [EOM];
      serialPort.Write(message);
    }

    /** Sends a packet as a DMX universe with the NULL START code. */
    method SendDmx(packet: Packet)
      modifies serialPort
      ensures serialPort.written == old(serialPort.written) + DmxFrame(packet)
    {
      var msg := [SC] + packet.data;
      Transmit(LABEL_OUTPUT_ONLY_SEND_DMX, msg);
    }
  }
}
