# Ambilight: a verified model of the host application and the LED firmware

Ambilight drives a strip of 73 SK6812 RGBW LEDs mounted behind a monitor.
The LEDs run 19 up the left edge, 35 across the top and 19 down the right
edge. Two programs take part:

- **The host application** (`pc_app/ambilight.py`).
  - It captures three thin strips along the screen edges and averages one
    segment of a strip per LED.
  - It boosts saturation, scales brightness and smooths each LED over time.
  - It clips and truncates the colours to bytes and writes one Adalight
    frame per cycle to the serial port. A frame is "Ada", the high and low
    byte of LED count minus one, a checksum, and then R, G, B per LED.
- **The firmware** (`src/main.cpp`).
  - It searches the serial stream for "Ada" and checks the checksum.
  - It decodes the LED count, which is a `uint16_t`, and clamps it to the
    strip.
  - It clears its pixel buffer and converts every RGB triple to RGBW.
  - While no data arrives, `checkConnection()` shows an ambient colour.
    After ten minutes without data it fades the strip out.

The model has one module per concern:

| file | module | contents |
|---|---|---|
| `common.dfy` | `Common` | bytes, bitwise XOR, `Option` |
| `adalight.dfy` | `Adalight` | the magic word, the checksum key and the checksum |
| `firmware.dfy` | `Firmware` | the parser as a specification (`Scan`, `Parse`, `Decoded`) and the class `Controller`; its `Loop` is `loop()` and its `CheckConnection` is `checkConnection()` |
| `host_layout.dfy` | `Layout` | the LED layout, the configuration clamps, the capture regions and the segment arithmetic of `_setup_monitor` |
| `host_ports.dfy` | `Ports` | the port choice of `connect_serial` |
| `host_sampling.dfy` | `Sampling` | screenshot rows of BGRA bytes, rectangle sums and means, and the colour of every LED |
| `host_colors.dfy` | `Colors` | saturation, brightness, smoothing, clip and truncation, over exact reals |
| `host_frame.dfy` | `WireFrame` | the header and payload bytes the host writes |
| `host_app.dfy` | `Host` | the class `Ambilight` with its preallocated arrays, `process_colors`, `send` and `cleanup` |
| `round_trip.dfy` | `RoundTrip` | host frames through the firmware parser |

The serial line is modelled as a sequence of bytes:

- On the firmware side, `Controller.rx` holds the bytes received and not
  yet read, and `Serial.read()` takes its head.
- On the host side, `Ambilight.tx` holds every byte written.

Screenshots, the monitor list, the port list, the clock (`millis()`) and
whether a serial write succeeds are all parameters.

The saturation boost moves each channel away from the pixel's grey level,
which is the mean of its three channels. For (200, 100, 100) and the
default factor 1.2 this gives (213.3, 93.3, 93.3), truncated to
(213, 93, 93) (`Colors.SaturationExample`). The dominant channel is not
scaled by 1.2 on its own.

## Model

| member | source | states |
|---|---|---|
| Adalight.ChecksumValues | src/main.cpp:110 | `hi ^ lo ^ 0x55` is 0x55 for a one-LED header and 0x1D for the 73-LED header |
| Adalight.ChecksumRemovesKey | src/main.cpp:110 | XOR-ing 0x55 back out of the checksum of hi and lo leaves `hi ^ lo` |
| Adalight.ChecksumDetectsByteError | src/main.cpp:109-113 | a header in which exactly one of hi and lo was corrupted fails the checksum, so its count never reaches the buffer |
| Firmware.ToRgbw | src/main.cpp:144-150 | the white channel is at most each of r, g and b (no underflow); at least one colour channel ends at 0; adding w back gives (r, g, b) |
| Firmware.DecodeCount | src/main.cpp:116-121 | the count is `hi * 256 + lo + 1` below 73, exactly 73 from there to 0xFFFE, and 0 for 0xFFFF because the uint16 wraps; it is never more than 73 |
| Firmware.Scan | src/main.cpp:83-113 | a header the search accepts ends in "Ada", hi, lo and a checksum that holds, and its count is DecodeCount of those hi and lo |
| Firmware.ScanShift | src/main.cpp:83-113 | the search depends only on the bytes it has not yet passed: bytes placed in front shift the header found by their length |
| Firmware.LeadByteThenMismatch | src/main.cpp:83-92 | for every stream: an 'A' followed by any byte other than 'd' is consumed as a pair, and the search then finds exactly what it finds in the rest of the stream, shifted by two bytes |
| Firmware.RepeatedLeadByteMissesHeader | src/main.cpp:83-92 | a mismatched byte is consumed and never compared with 'A' again: "Ada" and a header give 1 LED, but "AAda" and the same header give no header |
| Firmware.ChecksumFailureRestarts | src/main.cpp:109-113 | a header with a wrong checksum is dropped and the search restarts right after it |
| Firmware.AwaitHeader | src/main.cpp:82-113 | the goto-driven search finds a header exactly when Parse does, and it returns Parse's payload position and count |
| Firmware.Decoded | src/main.cpp:124-151 | the buffer after a header: every pixel from numLeds on is all zero, and every announced pixel whose bytes arrived is exactly the RGBW conversion of its triple (so w is the triple's minimum, one colour channel is 0, and adding w back gives the triple) |
| Firmware.Fade | src/main.cpp:64-65 | one fade step lowers the brightness by at most one, and leaves it unchanged exactly when it is already 0 |
| Firmware.Elapsed | src/main.cpp:60 | `millis() - lastDataTime` in 32-bit unsigned arithmetic is the time since the last frame modulo 2^32, even across a wrap of the counter |
| Firmware.FadeReachesOff | src/main.cpp:62-69 | repeated long-idle calls lower the brightness by one per call down to 0, and never below 0 |
| Firmware.Controller.constructor | src/main.cpp:39-52 | the buffer starts all zero at full brightness, with lastDataTime 0 and nothing received |
| Firmware.Controller.Receive | src/main.cpp:85-88 | arriving bytes are appended to the unread serial input |
| Firmware.Controller.Loop | src/main.cpp:79-158 | without a header the buffer is unchanged. Otherwise the buffer is Decoded: cleared, then every announced triple that arrived, as RGBW. The frame is shown exactly when all `3 * numLeds` bytes arrived; then exactly those bytes are consumed, lastDataTime is now and the brightness is back to 255 |
| Firmware.Controller.ClearAndFill | src/main.cpp:123-151 | after the memset and the per-LED loop, the buffer is Decoded; `complete` holds exactly when the payload fits in the input, and then `3 * numLeds` bytes were read |
| Firmware.Controller.Fill | src/main.cpp:126-151 | on a cleared buffer, pixel j becomes the RGBW form of triple j when j is announced and has arrived; every other pixel stays zero |
| Firmware.Controller.CheckConnection | src/main.cpp:59-77 | past 600000 ms the brightness fades one step and the pixels are kept. Past 5000 ms every pixel is the ambient colour and the brightness is kept. Otherwise nothing changes |
| Layout.LedIndex | pc_app/ambilight.py:25-28 | LED i of an edge sits in that edge's block of the strip: [0,19) left, [19,54) top, [54,73) right |
| Layout.EdgeOf | pc_app/ambilight.py:162-181 | every strip index in [0,73) is LedIndex of some edge and position on it |
| Layout.LedIndexInjective | pc_app/ambilight.py:162-181 | two (edge, position) pairs share a strip index only when they are equal, so no index is written twice by one capture |
| Layout.TargetFps | pc_app/ambilight.py:57 | `min(fps, 60)`: never above 60, and unchanged below it |
| Layout.MonitorIndex | pc_app/ambilight.py:88 | `min(monitor + 1, len - 1)`: never past the last entry; a non-negative selector skips entry 0 (all screens together) when there is a real monitor |
| Layout.SelectMonitor | pc_app/ambilight.py:87-89 | the IndexError case happens exactly when the index is out of Python's range; a valid selector picks `monitors[monitor + 1]` |
| Layout.ClampDepth | pc_app/ambilight.py:93 | `min(depth, 50)`: the depth itself up to 50, and 50 above it |
| Layout.SetupGeometry | pc_app/ambilight.py:85-117 | the three regions have the monitor's edges and depth 30; the right region ends flush with the monitor; `v_seg` and `h_seg` are the floors of height / 19 and width / 35 |
| Layout.SegmentPosition | pc_app/ambilight.py:162-181 | SegmentStart, for every LED i of an edge including the last: top and right LED i starts i segment lengths from the start of the edge, left LED i ends i segment lengths above the bottom |
| Layout.SegmentsAbut | pc_app/ambilight.py:162-181 | for every LED but the last on its edge, the next LED's segment starts where this one ends, in traversal order (upwards on the left edge) |
| Layout.SegmentInside | pc_app/ambilight.py:160-181 | every LED's segment (left bottom-up, top left-to-right, right top-down) lies inside its edge and the sampled span |
| Layout.SegmentsDisjoint | pc_app/ambilight.py:160-181 | segments of one edge never overlap, and a later LED lies further along the traversal |
| Layout.CoveredIffInSpan | pc_app/ambilight.py:116-117 | for any monitor size, a pixel is averaged by some LED if and only if it lies in the span of 19·v_seg or 35·h_seg pixels; the remainder pixels are never sampled |
| Ports.FirstRecognised | pc_app/ambilight.py:125-128 | the index of the first port whose description contains one of the four keywords; no earlier port does |
| Ports.AutoDetect | pc_app/ambilight.py:123-133 | no port exactly when the list is empty (the fatal exit); otherwise the first recognised port wins, else the first port |
| Ports.ChoosePort | pc_app/ambilight.py:123-133 | an explicit port is returned unchanged; otherwise the loop's choice is AutoDetect's |
| Ports.CloneIsFound | pc_app/ambilight.py:126 | "USB-SERIAL CH340 (COM5)" is recognised and preferred over an earlier port described as "n/a" |
| Sampling.RectSum | pc_app/ambilight.py:164 | the channel sum over a rectangle is at most 255 per pixel |
| Sampling.ChannelMean | pc_app/ambilight.py:164 | the mean of one channel over a non-empty rectangle lies in [0, 255] |
| Sampling.RectMean | pc_app/ambilight.py:164 | the `[2, 1, 0]` mean of a rectangle has every channel in [0, 255] |
| Sampling.UniformMean | pc_app/ambilight.py:164 | the mean of a channel that is v on every pixel is v |
| Sampling.ChannelBytes | pc_app/ambilight.py:164 | R, G and B are bytes 2, 1 and 0 of a BGRA pixel |
| Sampling.AlphaIgnored | pc_app/ambilight.py:159-164 | shots that agree on the B, G and R bytes have the same means, so the fourth byte never reaches a colour |
| Sampling.SegmentColor | pc_app/ambilight.py:162-181 | every LED's colour has channels in [0, 255] |
| Sampling.Sample | pc_app/ambilight.py:153-183 | the array has 73 colours, and LED i of edge e is stored at LedIndex(e, i) with the mean of its segment |
| Sampling.UniformScreen | pc_app/ambilight.py:153-183 | a screen of one colour gives that colour to all 73 LEDs |
| Colors.Saturate | pc_app/ambilight.py:188-190 | the grey level is kept and each channel's distance from it is scaled by the factor |
| Colors.Brighten | pc_app/ambilight.py:193-194 | each channel is multiplied by the brightness factor (skipping the factor 1 changes nothing) |
| Colors.BrightenInRange | pc_app/ambilight.py:193-194 | a brightness factor in [0, 1] never raises a channel and never makes a non-negative one negative, so channels in [0, 255] stay there |
| Colors.BrightenScalesGray | pc_app/ambilight.py:193-194 | the grey level is multiplied by the brightness factor |
| Colors.Adjust | pc_app/ambilight.py:188-194 | saturation then brightness: the grey level is scaled by the brightness, and each channel's distance from the grey level by saturation times brightness |
| Colors.Mix | pc_app/ambilight.py:202 | one smoothing step shrinks the distance to the current value by the factor 1 - alpha |
| Colors.Blend | pc_app/ambilight.py:202 | every channel's distance to the current colour shrinks by the factor 1 - alpha |
| Colors.Smooth | pc_app/ambilight.py:197-203 | the first frame is taken as it is; afterwards every channel's distance to the current colour shrinks by 1 - alpha |
| Colors.Quantize | pc_app/ambilight.py:206-207 | each output channel is the floor of its channel in [0, 255], 0 below and 255 above |
| Colors.Clip | pc_app/ambilight.py:206 | `np.clip(x, 0, 255)` lies in [0, 255] and leaves values in range unchanged; 0 below and 255 above |
| Colors.ClipTrunc | pc_app/ambilight.py:206-207 | below 0 gives 0, above 255 gives 255, and in between the byte is the floor of the value |
| Colors.FullAlphaFollowsInput | pc_app/ambilight.py:201-203 | with alpha 1 the blend is the current colour |
| Colors.BlendBetween | pc_app/ambilight.py:201-203 | for alpha in [0, 1] every channel of the blend lies between the previous state and the current colour |
| Colors.MixConverges | pc_app/ambilight.py:202 | after n steps towards a fixed value the distance is (1 - alpha)^n times the initial one |
| Colors.SmoothingConverges | pc_app/ambilight.py:200-203 | a steady input is approached geometrically, channel by channel |
| Colors.SaturationExample | pc_app/ambilight.py:188-190 | (200, 100, 100) at factor 1.2 becomes (640/3, 280/3, 280/3) and is output as (213, 93, 93) |
| Colors.SaturationClips | pc_app/ambilight.py:206-207 | a saturated pure red that overshoots 255 is clipped to (255, 0, 0) |
| Host.Render | pc_app/ambilight.py:206-207 | every entry of the output array, channel by channel, is the integer part of the state clipped to [0, 255] |
| Host.NextState | pc_app/ambilight.py:188-203 | the new state of every LED is its adjusted input on the first frame; afterwards its distance to the adjusted input is 1 - smoothing times the old distance |
| Host.NoSmoothingFollowsInput | pc_app/ambilight.py:197-207 | with smoothing 1 the output is the adjusted input, on the first frame and afterwards |
| Host.StateMovesTowardInput | pc_app/ambilight.py:200-203 | after the first frame each LED's new state lies between its old state and its adjusted input |
| Host.Ambilight.constructor | pc_app/ambilight.py:54-79 | the fps cap, brightness / 255, the geometry of `_setup_monitor`, zeroed arrays, the first-frame flag and the header `41 64 61 00 48 1D` |
| Host.Ambilight.CaptureAndSample | pc_app/ambilight.py:153-183 | after the three loops the colour array is exactly Sample of the three shots |
| Host.Ambilight.SampleEdge | pc_app/ambilight.py:162-181 | one edge's loop gives LED i of the edge the colour of its segment at strip index EdgeBase(e) + i, and writes no index outside that edge's block |
| Host.Ambilight.ProcessColors | pc_app/ambilight.py:185-208 | the state becomes the adjusted input on the first frame and the blend afterwards, stored unclipped. The output is the state clipped and truncated. With saturation 1 `self.colors` is scaled in place, and also clipped on the first frame |
| Host.Ambilight.Send | pc_app/ambilight.py:210-215 | a successful write appends header plus payload to the bytes sent; a failed one stops the main loop |
| Host.Ambilight.Step | pc_app/ambilight.py:233-235 | one pass of the main loop: the smoothing state follows the sampled colours and the frame of the output is sent. The colour array holds the sample, or with saturation 1 the brightened sample, also clipped on the first frame |
| Host.Ambilight.Cleanup | pc_app/ambilight.py:259-266 | the loop is stopped and the port closed; an open port first receives the all-zero frame |
| WireFrame.HeaderFor | pc_app/ambilight.py:76-79 | "Ada", then hi and lo of the count modulo 2^16, then their checksum |
| WireFrame.HeaderBytes | pc_app/ambilight.py:76-79 | for 73 LEDs the header is `41 64 61 00 48 1D` |
| WireFrame.Payload | pc_app/ambilight.py:213 | `tobytes()` of an (n, 3) array is 3n bytes: R, G, B of LED 0, then LED 1, and so on |
| WireFrame.Frame | pc_app/ambilight.py:213 | `header + tobytes()`: 6 + 3n bytes, the header first, then byte 6 + 3k + c is channel c of LED k |
| WireFrame.FrameLayout | pc_app/ambilight.py:213 | a full frame is 225 bytes, and byte 6 + 3k + c is channel c of LED k |
| WireFrame.BlackoutFrame | pc_app/ambilight.py:263 | the cleanup frame is the header followed by 219 zero bytes |
| RoundTrip.HeaderAccepted | src/main.cpp:109-121 | every header the host can build passes the checksum; the count is count + 1 below 73, 73 up to 0xFFFE, and 0 at 0xFFFF |
| RoundTrip.FrameDecodes | src/main.cpp:79-151 | a host frame for 1 to 73 LEDs is parsed with its count and fully received; its LEDs show the host's colours as RGBW and the rest of the strip is dark |
| RoundTrip.HostFrameRoundTrip | src/main.cpp:110-150 | for the host's 73-LED frame, each LED's r + w, g + w and b + w are the host's k-th triple |
| RoundTrip.HostToStrip | src/main.cpp:79-158 | a fresh controller that receives one host frame and runs `loop()` shows it, with every LED holding the host's colour in RGBW form |

## Left out

- Screen capture (`mss`): the grabber and the monitor list are inputs. The three shots are given as rows of BGRA bytes of the region sizes.
- Serial I/O: opening the port, the two-second wait and the "Ada" handshake polling in `connect_serial`, the write itself and `close`. The write's outcome is a parameter of Send and Cleanup.
- The `sleep` in `cleanup` and all console output.
- `run()` pacing, the `frame_count` and `last_print` counters and the FPS printout. They are wall-clock floats, and the model has one loop pass (Host.Ambilight.Step) instead.
- `set_low_priority`, `main` and argument parsing: operating-system hints and command-line plumbing.
- `pc_app/ambilight pro.py` is not part of this model.
- Colors and Sampling use exact reals. numpy's float32 rounding in the mean, the saturation, the brightness and the blend is not modelled.
- Sampling.Sampleable requires at least 19 rows and 35 columns, so every segment is non-empty. On a smaller monitor numpy's mean of an empty slice is NaN, which the model does not represent.
- Host.Ambilight.constructor: takes the monitor that Layout.SelectMonitor picked and the device that Ports.ChoosePort picked. It does not call them itself, so the IndexError of `monitors[idx]` and the fatal exit on an empty port list stay with those functions.
- Host.Ambilight.ProcessColors: returns nothing. The caller reads `output` itself, and the numpy aliasing of the returned array with `self.output` is not modelled.
- FastLED: `addLeds`, `setBrightness`, `show`, the CRGBW pointer cast and `delay`. Brightness is kept as the field `currentBrightness`.
- The exact value of `CRGB::SaddleBrown`: the ambient colour is a constructor parameter of Firmware.Controller.
- Firmware.Controller.Loop: the `Serial.available()` busy-waits are not modelled. When the received bytes run out before a frame is complete, the device would wait, calling `checkConnection()`, and then continue with later bytes. The model instead returns false and drops the partial input, so a frame split across two calls is not followed.
- Firmware `setup()`: the serial begin, the `delay(100)` and the "Ada\n" greeting. Its memset is part of Firmware.Controller.constructor.
