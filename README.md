# IdahoCore light controller: DMX output and colour algebra

This project models the two computational parts of the IdahoCore lighting
script, in Dafny:

- **`Color`** (`color.dfy`, from `color.py`). A colour is an RGB triple of
  exact reals (`Rgb`). The datatype constructor stands for `rgb(r, g, b)`,
  which returns its triple unchanged. The module has linear interpolation
  (`Lerp`), per-channel blending (`Blend`), the eight named colours and the
  rainbow palette (`RainbowPalette`). The HSV-to-RGB conversion that the
  rainbow uses is the library routine `colorsys.hsv_to_rgb`. Here it is a
  function-valued parameter `hsv`, and nothing is assumed about the colours
  it returns. The value of entry x is `luminosity/(x+1)`, so the rainbow
  dims along the strand (`RainbowValueDims`). The model follows the code:
  the palette does not keep a fixed luminosity, although the doc comment
  speaks only of colours evenly spaced around the wheel.
- **`Dmx`** (`dmx.dfy`, from `dmx.py`). It covers quantising colours to
  packet bytes (`NewPacket`) and framing the Enttec DMX USB Pro "Output Only
  Send DMX Packet" message (`Frame`, `DmxFrame`). The sending side is
  `Widget.Transmit` and `Widget.SendDmx`, and `Rotate` is list rotation.
  - A widget message is the start byte `0x7E`, the label, the payload size
    in two bytes (low byte first), the payload and the end byte `0xE7`.
  - `send_dmx` sends under label `0x06` a payload made of the DMX512 NULL
    START code `0x00` (ANSI E1.11, DMX512-A) followed by the packet bytes.
  - The serial port is a `ByteSink` object that keeps every byte written to
    it. `Widget` holds it and appends one whole message per `Transmit`.

`Packet.__init__` appends to a `bytearray` in a loop. It is modelled as the
method `NewPacket`, which builds its data inside a loop with invariants. It
returns either `Packet(data)` or the error `ByteOutOfRange(offset, value)`.
That error is the `ValueError` that `bytearray.append` raises at the first
byte outside 0..255.

The method is proved equal to the functional specification `PacketBytes`.
The layout of `PacketBytes` is proved in turn: three bytes per colour, in
r, g, b order. The packet is a value once built: `send_dmx` only reads its
`data`.

`transmit` is a pure function `Frame` plus the method `Widget.Transmit`. The
method builds the header by appends and writes `Frame(label, data)` to the
sink. `Decode` is the receiving side's reading of a message. It is not in
the program; it is there to prove that framing loses nothing for payloads
under 65536 bytes (`DecodeFrame`, `FrameDecode`), and that longer payloads
wrap the length field (`FrameWrapsBeyond`).

Python's slice rules are modelled exactly for `rotate(l, n)`:

- a negative `n` counts from the end;
- a bound past either end is clamped.

So `Rotate` turns left by `n mod |l|` only for `-|l| <= n <= |l|`. Shifts
beyond that leave the list unchanged (`RotateIdentity`).

Arithmetic is idealised: channels and fractions are `real`, and `int(x)` is
truncation toward zero (`Trunc`).

## Model

| member | source | states |
|---|---|---|
| `Dmx.LengthBytesDecode` | dmx.py:30-33 | the two length bytes `LengthLo` (`size & 0xFF`) and `LengthHi` (`(size >> 8) & 0xFF`), read low byte first, give the payload size modulo 65536 |
| `Dmx.Frame` | dmx.py:29-34 | a message is the payload size plus 5 bytes long, with the start byte first, the label second and the end byte last; bytes 2 and 3 encode the size modulo 65536; the payload sits unchanged at offsets 4 to 4+size-1 |
| `Dmx.Decode` | dmx.py:29-34 | a message that reads back has at least 5 bytes, and its payload length equals its length field |
| `Dmx.DecodeFrame` | dmx.py:29-34 | reading back the message of any label and any payload under 65536 bytes gives that label and payload |
| `Dmx.FrameDecode` | dmx.py:29-34 | every message that reads back is exactly the frame of its label and payload |
| `Dmx.FrameWrapsBeyond` | dmx.py:30-34 | a payload of 65536 bytes or more gets a wrapped length field, so its message does not read back |
| `Dmx.Trunc` | dmx.py:47-49 | `int(x)`: the integer that is at most 1 away from x, toward zero |
| `Dmx.ChannelFitsRange` | dmx.py:47-49 | a channel's byte `Quantize(x)`, that is `int(x*255)`, is accepted exactly when -1/255 < x < 256/255; every channel in [0,1] is accepted; 0 gives 0 and 1 gives 255 |
| `Dmx.PacketBytesLength` | dmx.py:43-49 | packet data `PacketBytes(colors)` (each colour's `ColorBytes` in turn) has three bytes per colour |
| `Dmx.PacketBytesAt` | dmx.py:43-49 | channel k of colour i (r, g, b order) is quantised at offset 3i+k |
| `Dmx.NewPacket` | dmx.py:42-49 | succeeds exactly when every channel of every colour fits in a byte, and then its data is `PacketBytes(colors)`; otherwise it names the first byte outside 0..255, its offset and value, and every earlier byte fits |
| `Dmx.InGamutFits` | dmx.py:47-49 | colours whose channels all lie in [0,1] always make a packet |
| `Dmx.BlendFits` | dmx.py:47-49 | a blend of two in-gamut colours by a fraction in [0,1] fits in a packet |
| `Dmx.NamedColorBytes` | dmx.py:47-49 | White, Black, Red, Green and Blue quantise to 255/0 bytes in r, g, b order |
| `Dmx.DmxFrameLayout` | dmx.py:37-39 | for every packet, `DmxFrame(packet)` (the message `SC + bytes(packet.data)` under label 0x06) is the packet's size plus 6 bytes: `7E 06 lo hi 00`, the packet bytes, `E7`; the length field counts the start code and the packet bytes modulo 65536 |
| `Dmx.DmxFrameOfColors` | dmx.py:37-39 | for any number n of colours, the DMX message is 3n+6 bytes, with the colours' bytes right after the start code |
| `Dmx.SliceBound` | dmx.py:52 | a bound in 0..len is itself; a negative bound counts from the end; a bound past either end is clamped to len or 0 |
| `Dmx.Rotate` | dmx.py:51-52 | rotation keeps the length and the multiset of elements |
| `Dmx.RotateAt` | dmx.py:51-52 | for -len <= n <= len, index i of `rotate(l, n)` holds `l[(i+n) mod len]` |
| `Dmx.RotateIdentity` | dmx.py:51-52 | a shift of 0, or of at least len either way, leaves the list unchanged |
| `Dmx.RotateInverse` | dmx.py:51-52 | rotating by n and then by len-n gives the list back |
| `Dmx.ByteSink.constructor` | dmx.py:22 | a freshly opened port has had nothing written to it |
| `Dmx.ByteSink.Write` | dmx.py:35 | writing appends the message to what the port has received |
| `Dmx.Widget.constructor` | dmx.py:20-22 | the widget talks through the given port |
| `Dmx.Widget.Transmit` | dmx.py:29-35 | the port receives exactly `Frame(label, data)` after what it had |
| `Dmx.Widget.SendDmx` | dmx.py:37-39 | the port receives exactly the DMX message of the packet after what it had |
| `Color.Lerp` | color.py:12-15 | f=0 gives a, f=1 gives b, equal end points give that point, and f in [0,1] stays between a and b |
| `Color.LerpBetween` | color.py:12-15 | for f in [0,1], `a + (b-a)*f` lies between min(a,b) and max(a,b) |
| `Color.LerpMonotone` | color.py:12-15 | when a <= b, the interpolation is monotone in f |
| `Color.Blend` | color.py:17-24 | fraction 0 gives color1, fraction 1 gives color2, blending a colour with itself gives it back, and in-gamut colours with f in [0,1] blend to an in-gamut colour |
| `Color.BlendPerChannel` | color.py:17-24 | each channel of the blend is `lerp` of the matching channels with the same fraction |
| `Color.BlendMonotone` | color.py:17-24 | a channel of the blend moves monotonically with f toward the larger end point |
| `Color.NamedColors` | color.py:26-33 | the eight named colours (whose components are their declarations) are all in gamut, and black blended halfway to white is mid grey |
| `Color.RainbowPalette` | color.py:35-38 | n colours (none for n <= 0); entry x is the HSV conversion of hue x/n, the given saturation and value luminosity/(x+1) |
| `Color.RainbowHueRange` | color.py:35-38 | for every n >= 1, the first hue is 0 and every hue lies in [0,1) |
| `Color.RainbowHuesEvenlySpaced` | color.py:35-38 | the hues increase strictly along the palette and step by 1/n |
| `Color.RainbowSingle` | color.py:35-38 | a one-colour rainbow is the conversion of hue 0 at full luminosity |
| `Color.RainbowValueDims` | color.py:35-38 | for positive luminosity, the value falls strictly along the palette and never exceeds the luminosity |

## Left out

- Opening the serial port, its baud rate and timeout, the console messages, and the exit on failure (dmx.py:20-27): device I/O. The port is an abstract `ByteSink`.
- `Dmx.Widget.Transmit`: the label is one byte. Every call passes the one-byte `bytes` constant `LABEL_OUTPUT_ONLY_SEND_DMX`. A label of any other length, which `bytearray(label)` would also accept, is not modelled.
- `Dmx.NewPacket`: the packet is a value `Packet(data)`, not an object whose field the loop fills in. Nothing else refers to the half-built object, so only the result or the error is modelled.
- `Dmx.NewPacket`: a colour that is not a 3-tuple, which makes the unpacking fail, cannot occur: `Rgb` always has three channels.
- IEEE floating point: `r * 255`, `x / n`, `luminosity / (x + 1)` and `a + (b - a) * f` use exact reals. Over floats, `lerp(a, b, 1) == b` can fail by rounding. A blended channel that is exactly 1 over the reals can come out as 0.999…, which quantises to 254 instead of 255. A channel of exactly 1.0 (or the integer 1 of the named colours) still gives 255.
- `hsv` and `hsl` (color.py:6-10) call the `colorsys` library. `hsv` is a parameter of `RainbowPalette` with no properties, and `hsl` is not modelled.
- The `__main__` demo loop in dmx.py (lines 54-63) is left out. It opens the device, builds a 52-colour rainbow and sends one one-colour packet of the next rainbow colour per second, forever. Line 62 is missing a closing parenthesis.
- core.py (argument parsing, timer rescheduling, sleeps) is orchestration and concurrency. fakes.py prints a hex dump. lightsOff.py calls `color.MonoPalette`, which color.py does not define. None of these three files is part of this model.
- The DMX512 limit of 512 channel slots per universe is not checked by the program, and so not by the model. Payloads of 65536 bytes or more wrap the length field, as `FrameWrapsBeyond` shows.
