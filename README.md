# Ploytec / Allen & Heath USB mixer drivers — a verified Dafny model

The repository drives the Allen & Heath Xone:DB4, DB2, DX and 4D mixers, whose
USB interface is a Ploytec design, on macOS (AudioDriverKit drivers, a
user-space HAL plug-in with its USB daemons, a kernel-extension engine) and on
Linux (two ALSA drivers). Underneath the OS plumbing every copy shares a few
small integer cores, and this project models those cores and proves what they
promise:

- **The PCM codec** (`codec.dfy`). One S24_3LE frame (8 channels × 3 bytes)
  is spread bit by bit over 48 bytes that use only their low nibbles, and a
  64-byte capture frame is gathered back. The model proves the mapping bit by
  bit, that the decoder reads only bytes 0x00–0x17 and 0x20–0x37, and the
  round trip.
- **Packet layouts and ring I/O.** Bulk packets are built from 512-byte blocks
  of ten 48-byte frames and a 32-byte gap. Interrupt packets use 482-byte
  blocks with two UART bytes after the ninth frame. Around these sit the sync
  bytes, the 0xFD idle prefill, and the sample counters with their wrap-around
  and resync rules.
  - Shared parts: `frame_layout.dfy`, `io_ring.dfy`, `usb_buffer.dfy`.
  - Per device: `xonedb4_device.dfy`, `audio_device.dfy`,
    `ploytec_device.dfy`, `ploytec_audio_device.dfy`, `hal_audio_device.dfy`.

  Every frame-writing loop is proved to place each frame at its offset and to
  change no other byte.
- **Shared memory between USB engines and HAL plug-ins** (`midi_ring.dfy`,
  `shared_memory.dfy`). This covers the 1024-entry MIDI rings with their
  full/empty discipline and the 128 packet slots resubmitted two ahead. It also
  covers the sample clock, which advances 80 frames per output packet and
  publishes a zero timestamp every 640 frames under a sequence counter.
- **The USB engines.** Each is a class whose methods update its fields and the
  shared buffers in place:
  - ploytecusb, Ozzy and the OzzyKext kext in `ploytec_usb.dfy`,
    `ozzy_usb.dfy` and `kext_usb.dfy`;
  - the HAL driver in `hal_driver.dfy`;
  - the macOS kext engine and its OzzyKext backend in `ploytec_engine.dfy` and
    `ozzy_kext.dfy`.
- **Device control** (`sample_rate.dfy`, `usb_control.dfy`,
  `ploytec_driver.dfy`, `alsa_chip.dfy`):
  - the 3-byte little-endian tSampFreq of section 5.2.3.2.3.1 of the USB
    Audio Class 1.0 specification, as tables or shifts;
  - firmware version and status-flag decoding;
  - string-descriptor decoding (section 9.6.7 of the USB 2.0 specification);
  - the reset/probe handshake of the Linux driver.
- **The Linux ALSA position logic** (`pcm_stream.dfy`, `linux_pcm.dfy`,
  `alsa_pcm.dfy`). This covers `dma_off`/`period_off` advance and wrap,
  period-elapsed detection, the split of a packet across the ring end, the
  stream state machine, trigger, prepare and pointer.
- **The companion apps** (`state_machine.dfy`, `midi.dfy`,
  `driver_user_client.dfy`):
  - the driver-extension lifecycle state machine (10 states × 9 events) and
    the delegate callbacks that feed it;
  - the packing of 1–3-byte MIDI messages into a 64-bit word, and its inverse;
  - notification truncation;
  - the DriverKit user client's selector checks.

`wrap.dfy` gives the fixed-width unsigned arithmetic of the C sources. The
sources' uint16, uint32 and uint64 counters are modelled as naturals below
2^16, 2^32 and 2^64, and they wrap explicitly.

Calls into the operating system or the USB stack are not modelled as code.
These include control requests, asynchronous transfers, memory maps and
`GetCurrentClientIOTime`. They become parameters (an answer, a status, a
client time) or an append to a log of submitted requests.

Several copies of the same logic disagree, and some of them have defects.
Where the code has a defect, the model has two members. One follows the code
as written, and a lemma shows an input on which it goes wrong. The other is
the corrected definition with the intended property proved, and the rest of
the model is built on it. The table under "## Findings" pairs the two, and
every "## Model" row that states corrected behaviour says "corrected".

## Model

| member | source | states |
|---|---|---|
| PloytecCodec.EncodeByteBit | mac-coreaudio/XoneDB4Driver/XoneDB4Device.cpp:493-545 | bit b (0..3) of encoded byte k carries bit 7 − (k mod 8) of source byte EncodeBase(k) + 6b, one channel per bit, and bits 4..7 are clear |
| PloytecCodec.Encode | mac-coreaudio/XoneDB4Driver/XoneDB4Device.cpp:493-545 | a 24-byte S24_3LE frame becomes 48 wire bytes |
| PloytecCodec.EncodeNibbles | mac-coreaudio/XoneDB4Driver/XoneDB4Device.cpp:493-545 | every one of the 48 encoded bytes is below 16: only the low nibble carries data |
| PloytecCodec.DecodeByteBit | mac-coreaudio/XoneDB4Driver/XoneDB4Device.cpp:548-582 | bit q of decoded byte j is one bit of the capture byte DecodeTop(j) + 7 − q, taken from the position of byte j's channel |
| PloytecCodec.Decode | mac-coreaudio/XoneDB4Driver/XoneDB4Device.cpp:548-582 | a 64-byte capture frame becomes a 24-byte S24_3LE frame |
| PloytecCodec.DecodeReadsLowNibbles | mac-coreaudio/XoneDB4Driver/XoneDB4Device.cpp:548-582 | the decoder reads only the low nibbles of bytes 0x00..0x17 and 0x20..0x37: frames that agree there decode alike |
| PloytecCodec.Placed | mac-coreaudio/XoneDB4Driver/XoneDB4Device.cpp:548-582 | the capture frame that carries the 48 encoded bytes at 0x00..0x17 and 0x20..0x37 |
| PloytecCodec.RoundTripBit | mac-coreaudio/XoneDB4Driver/XoneDB4Device.cpp:493-582 | bit q of every decoded byte j is bit q of source byte j |
| PloytecCodec.RoundTripByte | mac-coreaudio/XoneDB4Driver/XoneDB4Device.cpp:493-582 | every decoded byte j is source byte j |
| PloytecCodec.RoundTrip | mac-coreaudio/XoneDB4Driver/XoneDB4Device.cpp:493-582 | decoding a capture frame that carries an encoded frame in its two 24-byte halves gives back the original 24 bytes, whatever the other 16 bytes hold |
| PloytecCodec.EncodeInto | mac-coreaudio/XoneDB4Driver/XoneDB4Device.cpp:493-545 | the converter writes the 48 encoded bytes at the destination offset and changes no other byte |
| PloytecCodec.DecodeInto | mac-coreaudio/XoneDB4Driver/XoneDB4Device.cpp:548-582 | the converter writes the 24 decoded bytes at the destination offset and changes no other byte |
| SampleRate.Encode24 | mac-hal/ploytechal/PloytecDriver.cpp:522-524 | the rate goes out as exactly three bytes, low byte first (its content is fixed by the round-trip lemmas below) |
| SampleRate.Decode24 | mac-hal/ploytechal/PloytecDriver.cpp:517 | three little-endian bytes carry a rate below 2^24 |
| SampleRate.Decode24Encode24 | mac-hal/ploytechal/PloytecDriver.cpp:512-533 | reading back the three bytes SetHardwareFrameRate sends gives the rate's low 24 bits, so every supported rate survives the round trip |
| SampleRate.Encode24Decode24 | mac-hal/ploytechal/PloytecDriver.cpp:512-533 | sending back the rate a three-byte answer decodes to reproduces those three bytes |
| SampleRate.Encode24Injective | linux-alsa/chip.c:183-193 | two rates below 2^24 with the same three bytes are the same rate, so a three-byte answer names at most one table rate |
| ExtensionStateMachine.ErrorEventState | mac-coreaudio/PloytecApp/PloytecAppViewModel.swift:45-48 | dextNotPresent and codeSigningErr lead to their own error states |
| ExtensionStateMachine.OnActivatingOrNeedsApproval | mac-coreaudio/PloytecApp/PloytecAppViewModel.swift:35-50 | from activating, only activationFinished reaches activated; a failure or any deactivation event is activationError; no deactivation state is reachable |
| ExtensionStateMachine.OnActivated | mac-coreaudio/PloytecApp/PloytecAppViewModel.swift:52-67 | from activated, activationFinished stays activated, deactivationStarted begins deactivating, and a prompt, failure or deactivation finish is activationError |
| ExtensionStateMachine.OnActivationError | mac-coreaudio/PloytecApp/PloytecAppViewModel.swift:69-80 | activationError is left only by a new activation or one of the two error events |
| ExtensionStateMachine.OnDeactivatingOrNeedsApproval | mac-coreaudio/PloytecApp/PloytecAppViewModel.swift:82-97 | from deactivating, only deactivationFinished reaches deactivated; a failure or any activation event is deactivationError; no activation state is reachable |
| ExtensionStateMachine.OnDeactivated | mac-coreaudio/PloytecApp/PloytecAppViewModel.swift:99-114 | from deactivated, deactivationFinished stays deactivated, and a prompt, an activation finish or a failure is deactivationError |
| ExtensionStateMachine.OnErrorState | mac-coreaudio/PloytecApp/PloytecAppViewModel.swift:116-159 | the three error states share one handler: a new activation or deactivation restarts, and any prompt, finish or failure is deactivationError |
| ExtensionStateMachine.Process | mac-coreaudio/PloytecApp/PloytecAppViewModel.swift:161-180 | the two error events win from every state; a new activation is honoured except while deactivating; activated and deactivated are reached only by the matching finish from the matching in-flight or settled state; the approval states only by a prompt while the matching request is in flight |
| ExtensionStateMachine.ApprovalSharesParentHandler | mac-coreaudio/PloytecApp/PloytecAppViewModel.swift:166-173 | each approval sub-state reacts to every event exactly as its parent state |
| ExtensionStateMachine.ActivationErrorAbsorbs | mac-coreaudio/PloytecApp/PloytecAppViewModel.swift:69-80 | activationError absorbs every event except a new activation and the two error events |
| ExtensionStateMachine.Run | mac-coreaudio/PloytecApp/PloytecAppViewModel.swift:298-308 | no events leave the state unchanged, and a trailing dextNotPresent ends in its error state |
| ExtensionStateMachine.FailureEvents | mac-coreaudio/PloytecApp/PloytecAppViewModel.swift:298-308 | a failure feeds one event, activationFailed, preceded by dextNotPresent or codeSigningErr exactly for an extension-domain code 4 or 8 |
| ExtensionStateMachine.FailureEndsInError | mac-coreaudio/PloytecApp/PloytecAppViewModel.swift:298-308 | after a failure the state is activationError or deactivationError, and activationError exactly when no code 4 or 8 was reported and an activation was in flight, settled or failed |
| ExtensionStateMachine.FinishWhileDeactivating | mac-coreaudio/PloytecApp/PloytecAppViewModel.swift:293-296 | didFinishWithResult always feeds activationFinished, so a finished deactivation request lands in deactivationError |
| ExtensionStateMachine.PloytecAppViewModel.constructor | mac-coreaudio/PloytecApp/PloytecAppViewModel.swift:190-196 | the app starts deactivated |
| ExtensionStateMachine.PloytecAppViewModel.ActivateExtension | mac-coreaudio/PloytecApp/PloytecAppViewModel.swift:244-250 | after submitting the request the state takes the activationStarted step |
| ExtensionStateMachine.PloytecAppViewModel.DeactivateExtension | mac-coreaudio/PloytecApp/PloytecAppViewModel.swift:252-258 | after submitting the request the state takes the deactivationStarted step |
| ExtensionStateMachine.PloytecAppViewModel.ActionForReplacingExtension | mac-coreaudio/PloytecApp/PloytecAppViewModel.swift:265-286 | the answer is always replace, never cancel, and the state also takes the activationStarted step |
| ExtensionStateMachine.PloytecAppViewModel.RequestNeedsUserApproval | mac-coreaudio/PloytecApp/PloytecAppViewModel.swift:288-291 | the state takes the promptForApproval step |
| ExtensionStateMachine.PloytecAppViewModel.DidFinishWithResult | mac-coreaudio/PloytecApp/PloytecAppViewModel.swift:293-296 | the state takes the activationFinished step whatever the request was |
| ExtensionStateMachine.PloytecAppViewModel.DidFailWithError | mac-coreaudio/PloytecApp/PloytecAppViewModel.swift:298-308 | the state takes the failure events and ends in activationError or deactivationError |
| ExtensionStateMachine.XoneDB4AppViewModel.constructor | mac-coreaudio/XoneDB4App/XoneDB4AppViewModel.swift:196-199 | the app starts deactivated |
| ExtensionStateMachine.XoneDB4AppViewModel.FoundProperties | mac-coreaudio/XoneDB4App/XoneDB4AppViewModel.swift:266-274 | the state is set directly to activated for an enabled extension and to deactivated otherwise |
| ExtensionStateMachine.XoneDB4AppViewModel.ActivateExtension | mac-coreaudio/XoneDB4App/XoneDB4AppViewModel.swift:246-252 | after submitting the request the state takes the activationStarted step |
| ExtensionStateMachine.XoneDB4AppViewModel.DeactivateExtension | mac-coreaudio/XoneDB4App/XoneDB4AppViewModel.swift:254-260 | after submitting the request the state takes the deactivationStarted step |
| ExtensionStateMachine.XoneDB4AppViewModel.ActionForReplacingExtension | mac-coreaudio/XoneDB4App/XoneDB4AppViewModel.swift:276-279 | the answer is always replace, never cancel, and the state is untouched |
| ExtensionStateMachine.XoneDB4AppViewModel.RequestNeedsUserApproval | mac-coreaudio/XoneDB4App/XoneDB4AppViewModel.swift:281-284 | the state takes the promptForApproval step |
| ExtensionStateMachine.XoneDB4AppViewModel.DidFinishWithResult | mac-coreaudio/XoneDB4App/XoneDB4AppViewModel.swift:286-289 | the state takes the activationFinished step |
| ExtensionStateMachine.XoneDB4AppViewModel.DidFailWithError | mac-coreaudio/XoneDB4App/XoneDB4AppViewModel.swift:291-301 | the state takes the failure events and ends in activationError or deactivationError |
| MidiBridge.WordLength | mac-coreaudio/PloytecApp/PloytecAppMIDIManager.swift:45 | a packed word announces a message length of 1 to 3 in its low byte, and 0 stands for any other low byte |
| MidiBridge.Unpack | mac-coreaudio/PloytecApp/PloytecAppMIDIManager.swift:45-48 | the reading of a packed word: as many bytes as its low byte announces |
| MidiBridge.UnpackInjective | mac-coreaudio/PloytecApp/PloytecAppMIDIManager.swift:45-48 | two packed words that carry the same message are the same word, so each message has exactly one packed form |
| MidiBridge.Pack | mac-coreaudio/PloytecApp/PloytecAppMIDIManager.swift:45-48 | the packing loop turns a message of 1 to 3 bytes into a packed word that unpacks to exactly that message |
| MidiBridge.PackedWordUnpacks | mac-coreaudio/PloytecApp/PloytecAppMIDIManager.swift:45-48 | the word the completed loop builds unpacks to the message |
| MidiBridge.PacketBytes | mac-coreaudio/PloytecApp/PloytecAppMIDIManager.swift:37-39 | a packet's bytes are the first min(length, data size) bytes of its data field |
| MidiBridge.ForwardedMessages | mac-coreaudio/PloytecApp/PloytecAppMIDIManager.swift:36-53 | the messages of a packet list that reach the driver are at most one per packet, each 1 to 3 bytes long |
| MidiBridge.ForwardedSnoc | mac-coreaudio/PloytecApp/PloytecAppMIDIManager.swift:36-53 | one more packet adds its bytes to the forwarded messages exactly when they are 1 to 3 bytes long |
| MidiBridge.MidiManager.constructor | mac-coreaudio/PloytecApp/PloytecAppMIDIManager.swift:9-21 | a new manager has no user client and has sent no packet |
| MidiBridge.MidiManager.Send | mac-coreaudio/PloytecApp/PloytecAppMIDIManager.swift:23-30 | one packet goes out with time stamp 0, length equal to the byte count and the bytes at the head of a zeroed data field, so its bytes are exactly those sent |
| MidiBridge.MidiManager.ReadCallback | mac-coreaudio/PloytecApp/PloytecAppMIDIManager.swift:32-54 | the packets are walked in order; each of 1 to 3 bytes reaches the driver as one word that unpacks to it, any other is dropped, earlier words are kept, and without a user client nothing is sent |
| MidiBridge.NotificationBytes | mac-coreaudio/PloytecApp/PloytecAppUserClientSwift.swift:31-38 | a payload without a UInt8 length and Data bytes is refused; otherwise the bytes are the first min(length, count) bytes of the data |
| MidiBridge.PloytecAppUserClient.constructor | mac-coreaudio/PloytecApp/PloytecAppUserClientSwift.swift:10-25 | the manager is linked back to the new client and nothing has been sent either way |
| MidiBridge.PloytecAppUserClient.SendToDriver | mac-coreaudio/PloytecApp/PloytecAppUserClientSwift.swift:27-29 | the word goes to the driver unchanged |
| MidiBridge.PloytecAppUserClient.HandleMidiNotification | mac-coreaudio/PloytecApp/PloytecAppUserClientSwift.swift:31-40 | a malformed payload sends nothing; otherwise the selected bytes go out as one packet, also when there are none |
| MidiBridge.LegacyMidiManager.constructor | legacy/mac-coreaudio/PloytecApp/PloytecAppUserClientSwift.swift:5-9 | a new manager carries the device name and has no user client and no sent messages |
| MidiBridge.LegacyMidiManager.Send | legacy/mac-coreaudio/PloytecApp/PloytecAppUserClientSwift.swift:43-44 | the bytes handed over are appended to what the manager has sent |
| MidiBridge.LegacyPloytecAppUserClient.constructor | legacy/mac-coreaudio/PloytecApp/PloytecAppUserClientSwift.swift:5-22 | the manager is built during init, named after the driver's device or "Ploytec" when there is none, and linked back to the client |
| MidiBridge.LegacyPloytecAppUserClient.SendToDriver | legacy/mac-coreaudio/PloytecApp/PloytecAppUserClientSwift.swift:32-34 | the word goes to the driver unchanged |
| MidiBridge.LegacyPloytecAppUserClient.HandleMidiNotification | legacy/mac-coreaudio/PloytecApp/PloytecAppUserClientSwift.swift:36-45 | a malformed payload sends nothing; otherwise the first min(length, count) bytes are handed to the manager |
| MidiBridge.PackedWord | mac-coreaudio/PloytecApp/PloytecAppMIDIManager.swift:45-48 | after i iterations of the packing loop the word has no bit set above byte i (the length byte and the first i message bytes) |
| DriverUserClient.InputFrames | mac-coreaudio/PloytecDriver/PloytecDriverUserClient.cpp:158 | the input frame count is bits 0-15 of the SetFrameCount word |
| DriverUserClient.OutputFrames | mac-coreaudio/PloytecDriver/PloytecDriverUserClient.cpp:159 | the output frame count is bits 32-47 of the SetFrameCount word |
| DriverUserClient.FrameCountIgnoresOtherBits | mac-coreaudio/PloytecDriver/PloytecDriverUserClient.cpp:157-161 | bits 16-31 and 48-63 of the frame-count word never affect either count |
| DriverUserClient.FrameCountRoundTrip | mac-coreaudio/PloytecDriver/PloytecDriverUserClient.cpp:157-161 | a word with a 16-bit input count in bits 0-15 and a 16-bit output count at bit 32 unpacks to both counts |
| DriverUserClient.LowByte | mac-coreaudio/PloytecDriver/PloytecDriverUserClient.cpp:137 | the URB count is the low byte of the scalar |
| DriverUserClient.Query | mac-coreaudio/PloytecDriver/PloytecDriverUserClient.cpp:96-197 | Open and Close succeed; the getters answer from the provider; a scalar getter without room for one scalar is BadArgument and returns nothing; the firmware reply holds at most three bytes; an unknown selector gets the superclass's answer |
| DriverUserClient.PloytecDriverUserClient.constructor | mac-coreaudio/PloytecDriver/PloytecDriverUserClient.cpp:18-30 | init zeroes the ivars: no provider, no MIDI action, no calls and no completions yet |
| DriverUserClient.PloytecDriverUserClient.ExternalMethod | mac-coreaudio/PloytecDriver/PloytecDriverUserClient.cpp:84-200 | NoResources without ivars and NotAttached without a provider, before any dispatch; a selector that needs a scalar without one is BadArgument with no provider call; the setters and SendMIDI forward their scalar; registration goes to RegisterForMIDINotification_Impl; other selectors change nothing at the provider |
| DriverUserClient.PloytecDriverUserClient.SetterCall | mac-coreaudio/PloytecDriver/PloytecDriverUserClient.cpp:132-166 | without a scalar BadArgument and no provider call; otherwise Success and one provider call: the low byte as the URB count, or the two frame counts unpacked from the word |
| DriverUserClient.PloytecDriverUserClient.RegisterForMIDINotificationImpl | mac-coreaudio/PloytecDriver/PloytecDriverUserClient.cpp:202-217 | without a completion BadArgument and nothing changes; otherwise the held action is released, the new one retained and held, and the result is Success |
| DriverUserClient.PloytecDriverUserClient.PostMIDIMessage | mac-coreaudio/PloytecDriver/PloytecDriverUserClient.cpp:219-231 | NoResources and no completion when no action is registered; otherwise exactly one completion with the message as its only argument |
| DriverUserClient.PloytecDriverUserClient.SendMidi | mac-coreaudio/PloytecDriver/PloytecDriverUserClient.cpp:233-248 | NotAttached without ivars or provider, BadArgument without a scalar, and otherwise scalarInput[0] goes to the provider unchanged |
| IoRing.FrameOffsetClosedForm | mac-coreaudio/PloytecDriver/PloytecDevice.cpp:176-228 | the bulk offset of ring frame s is 48 s + 32 (s div 10) and the interrupt offset 48 s + 2 ((s + 1) div 10) |
| IoRing.FrameOffsetBlocks | mac-coreaudio/XoneDB4Driver/XoneDB4Device.cpp:227-238 | ring frame s is frame s mod 10 of block s div 10, and in the interrupt layout the tenth frame of a block follows the two UART bytes |
| IoRing.FramesDisjoint | mac-coreaudio/XoneDB4Driver/XoneDB4Device.cpp:227-238 | distinct ring frames occupy disjoint 48-byte ranges, in ring order |
| IoRing.GapBytesOutsideFrames | mac-coreaudio/XoneDB4Driver/XoneDB4Device.cpp:227-238 | no ring frame covers a bulk gap byte or an interrupt UART byte |
| IoRing.FrameFits | mac-coreaudio/XoneDB4Driver/XoneDB4Device.cpp:227-238 | every ring frame lies inside the output ring |
| IoRing.RingFrame | mac-coreaudio/XoneDB4Driver/XoneDB4Device.cpp:229 | the ring frame of cycle frame i is (sample time + i) mod ring size, below the ring size |
| IoRing.WriteStep | mac-coreaudio/XoneDB4Driver/XoneDB4Device.cpp:227-238 | one more iteration of the write loop adds frame i to the layout of encoded frames |
| IoRing.GapBytesKept | mac-coreaudio/XoneDB4Driver/XoneDB4Device.cpp:227-238 | a completed write loop leaves every gap byte of the output ring as it was |
| IoRing.ReadStep | mac-coreaudio/XoneDB4Driver/XoneDB4Device.cpp:249-252 | one more iteration of the read loop adds frame i to the layout of decoded frames |
| IoRing.EncodeCycle | mac-coreaudio/XoneDB4Driver/XoneDB4Device.cpp:227-238 | the write loop encodes CoreAudio frames (t + i) mod size, i < n, at their ring offsets (a later frame overwriting an earlier one at the same slot) and leaves every gap byte as it was |
| IoRing.DecodeCycle | mac-coreaudio/XoneDB4Driver/XoneDB4Device.cpp:249-252 | the read loop decodes USB ring frames (t + i) mod size, i < n, from byte 64 s of the input ring into CoreAudio frame s |
| IoRing.EncodeCycleFrame | mac-coreaudio/XoneDB4Driver/XoneDB4Device.cpp:229-238 | one iteration of the write loop adds CoreAudio frame (t + i) mod size, encoded at its ring offset, to the frames already laid out |
| IoRing.DecodeCycleFrame | mac-coreaudio/XoneDB4Driver/XoneDB4Device.cpp:250-253 | one iteration of the read loop adds ring frame (t + i) mod size, decoded into CoreAudio's ring, to the frames already laid out |
| UsbBuffer.ZeroFill | mac-hal/ploytechal/PloytecDriver.cpp:381-382 | every byte of the buffer is 0 |
| UsbBuffer.IdlePairs | mac-hal/ploytechal/PloytecDriver.cpp:383-387 | every pair of the prefill loop that ends below the limit is written |
| UsbBuffer.PrefillIdle | mac-hal/ploytechal/PloytecDriver.cpp:383-387 | the prefill loop writes 0xFD at the two first bytes of every stride step whose pair fits and changes nothing else |
| UsbBuffer.MidiByteNo | mac-hal/ploytechal/PloytecDriver.cpp:194 | the MIDI/UART byte of each block is the first byte of the block's gap: 480 bulk, 432 interrupt |
| UsbBuffer.ZeroAndPrefill | mac-hal/ploytechal/PloytecDriver.cpp:381-387 | the output buffer is 0 except 0xFD at each block's MIDI pair |
| UsbBuffer.ZeroRange | mac-hal/ploytechal/PloytecDriver.cpp:364-370 | memset zeroes the given range and changes no other byte |
| UsbBuffer.ClearOutputBuffer | mac-hal/ploytechal/PloytecDriver.cpp:361-373 | with no buffer nothing happens; otherwise every PCM byte of the whole blocks becomes 0 and every other byte keeps its value |
| UsbBuffer.GapBytesNotPcm | mac-hal/ploytechal/PloytecDriver.cpp:361-373 | ClearOutputBuffer never zeroes a MIDI/UART or padding byte of a gap |
| UsbBuffer.FrameBytesArePcm | mac-hal/ploytechal/PloytecDriver.cpp:361-373 | every byte of every ring frame inside the whole blocks is a PCM byte that ClearOutputBuffer zeroes |
| HalAudioDevice.InputCapacityFits | mac-hal/ploytechal/PloytecAudioDevice.cpp:34-36 | every input ring frame below the capacity (whole 80-frame packets of 5120 bytes) lies inside the receive buffer |
| HalAudioDevice.OutputCapacityFits | mac-hal/ploytechal/PloytecAudioDevice.cpp:38-41 | every output ring frame below the capacity (whole packets of eight blocks) lies inside the transmit buffer, gaps included |
| HalAudioDevice.Fits24Range | mac-hal/ploytechal/PloytecAudioDevice.cpp:260-263 | a sample fits 24 bits exactly when its int32_t value lies in −0x800000..0x7FFFFF; the clamp as written also yields 0x800000, for a float of exactly 1.0 (see ClampAsWritten), which does not fit |
| HalAudioDevice.SampleBytes | mac-hal/ploytechal/PloytecAudioDevice.cpp:265-268 | the encoder's S24 bytes: three bytes per channel, low byte first |
| HalAudioDevice.EncodeFrame | mac-hal/ploytechal/PloytecAudioDevice.cpp:257-334 | eight samples become one 48-byte Ploytec frame |
| HalAudioDevice.Int32Sign | mac-hal/ploytechal/PloytecAudioDevice.cpp:379 | a sample is negative exactly when its bit 31 is set |
| HalAudioDevice.SignExtend24Meaning | mac-hal/ploytechal/PloytecAudioDevice.cpp:378-380 | the sign-extended sample fits 24 bits, keeps the three bytes as its low 24 bits and is negative exactly when bit 7 of the high byte is set |
| HalAudioDevice.SampleRoundTrip | mac-hal/ploytechal/PloytecAudioDevice.cpp:265-380 | sign extension of the three low bytes gives back every sample that fits 24 bits |
| HalAudioDevice.BytesRoundTrip | mac-hal/ploytechal/PloytecAudioDevice.cpp:265-380 | taking a sign-extended sample apart again gives back its three bytes |
| HalAudioDevice.DecodeFrame | mac-hal/ploytechal/PloytecAudioDevice.cpp:336-384 | a 64-byte capture frame becomes eight sign-extended samples |
| HalAudioDevice.Samples24 | mac-hal/ploytechal/PloytecAudioDevice.cpp:377-382 | the eight channels of 24 S24 bytes, each sign-extended |
| HalAudioDevice.FrameRoundTrip | mac-hal/ploytechal/PloytecAudioDevice.cpp:257-384 | a capture frame carrying the encoding of eight samples that fit 24 bits decodes to those samples |
| HalAudioDevice.SamplesRoundTrip | mac-hal/ploytechal/PloytecAudioDevice.cpp:265-380 | the S24 bytes of eight samples that fit 24 bits sign-extend back to those samples |
| HalAudioDevice.Slot | mac-hal/ploytechal/PloytecAudioDevice.cpp:122-137 | the ring index of frame i of a cycle: sampleTime mod size, then one up per frame and back to 0 at size; always below size |
| HalAudioDevice.SlotAdvance | mac-hal/ploytechal/PloytecAudioDevice.cpp:126-137 | moving m frames on without passing the ring end moves the index by m, and reaching the end returns it to 0 |
| HalAudioDevice.SlotsDistinct | mac-hal/ploytechal/PloytecAudioDevice.cpp:122-137 | the frames of one cycle of at most size frames use distinct ring slots |
| HalAudioDevice.CycleDisjoint | mac-hal/ploytechal/PloytecAudioDevice.cpp:122-137 | frame i of a cycle overlaps none of the frames written before it |
| HalAudioDevice.CycleGapBytesKept | mac-hal/ploytechal/PloytecAudioDevice.cpp:119-140 | a completed write cycle leaves every gap byte of the output ring as it was |
| HalAudioDevice.BatchFrame | mac-hal/ploytechal/PloytecAudioDevice.cpp:129-134 | frame k of a batch that starts at ring index r inside one block is frame done + k of the cycle, at index r + k, and starts frame r mod 10 + k of block r div 10 |
| HalAudioDevice.InterruptFrameOffset | mac-hal/ploytechal/PloytecAudioDevice.cpp:167-176 | the destination the interrupt handler computes for each frame of a batch, with two bytes more for the tenth frame, is that frame's ring offset |
| HalAudioDevice.WriteFrame | mac-hal/ploytechal/PloytecAudioDevice.cpp:133 | one EncodePloytecPCM call adds frame i of the cycle at its ring offset |
| HalAudioDevice.WriteBatchBulk | mac-hal/ploytechal/PloytecAudioDevice.cpp:128-134 | the bulk batch loop, stepping the destination by 48 bytes, writes each frame of the batch at its ring offset |
| HalAudioDevice.WriteBatchInterrupt | mac-hal/ploytechal/PloytecAudioDevice.cpp:167-177 | the interrupt batch loop, recomputing each destination from the frame's place in its block, writes each frame at its ring offset |
| HalAudioDevice.WriteRun | mac-hal/ploytechal/PloytecAudioDevice.cpp:126-136 | the inner loop cuts a run up to the ring end into batches that stay inside one block and writes every frame of the run at its slot |
| HalAudioDevice.WriteCycle | mac-hal/ploytechal/PloytecAudioDevice.cpp:119-140 | the WriteMix branch encodes n frames of CoreAudio's buffer at ring slots (sampleTime mod size + i) mod size and leaves the UART and padding bytes as they were |
| HalAudioDevice.CycleInputAt | mac-hal/ploytechal/PloytecAudioDevice.cpp:141-153 | samples 8k..8k+7 of a read cycle are the decoding of the k-th frame's ring slot |
| HalAudioDevice.StoreSamples | mac-hal/ploytechal/PloytecAudioDevice.cpp:377-382 | the closing loop of DecodePloytecPCM stores the eight sign-extended channels at dest[at..at + 8] and changes nothing else |
| HalAudioDevice.ReadFrame | mac-hal/ploytechal/PloytecAudioDevice.cpp:149 | one decode of ring slot s writes the cycle's frame i into dest[8i..8i + 8] |
| HalAudioDevice.ReadRun | mac-hal/ploytechal/PloytecAudioDevice.cpp:146-150 | the inner read loop decodes count frames from ring index r on, the source stepping by 64 bytes and the destination by 8 samples |
| HalAudioDevice.ReadCycle | mac-hal/ploytechal/PloytecAudioDevice.cpp:141-153 | the ReadInput branch fills CoreAudio's first 8n samples with the decoding of n input-ring frames from slot sampleTime mod size on, wrapping to slot 0 as often as needed, and leaves the rest untouched |
| HalAudioDevice.InputRingFits | mac-hal/ploytechal/PloytecAudioDevice.cpp:34-36 | the input ring stays inside the receive buffer |
| HalAudioDevice.OutputRingFits | mac-hal/ploytechal/PloytecAudioDevice.cpp:38-41 | a non-empty output ring stays inside the transmit buffer |
| HalAudioDevice.PeriodPositionMeaning | mac-hal/ploytechal/PloytecAudioDevice.cpp:91 | when the steps of a period fit a uint16, the counter lies inside step currentpos of its period |
| HalAudioDevice.CrossingIff | mac-hal/ploytechal/PloytecAudioDevice.cpp:94 | on a counter that does not wrap, frameCount frames cross into a new period exactly when they reach the period's end |
| HalAudioDevice.AnchorCrossed | mac-hal/ploytechal/PloytecAudioDevice.cpp:95 | the new anchor is a period boundary that this call's frames crossed: above the old counter and at most the new one |
| HalAudioDevice.StreamConfig | mac-hal/ploytechal/PloytecAudioDevice.cpp:241-255 | with channels the configuration is one buffer of that many channels and frames × channels × 4 bytes (when that fits a uint32); without channels the old configuration stays |
| HalAudioDevice.StoreKeepsSequenceEven | mac-hal/ploytechal/PloytecAudioDevice.h:94-99 | each timestamp store moves the uint32 sequence by two, odd in between, so an even sequence marks a consistent pair |
| HalAudioDevice.PloytecAudioDevice.constructor | mac-hal/ploytechal/PloytecAudioDevice.h:17-35 | the member initialisers: buffer frame size 32768, period 2560, seed 1, no channels, a zero timestamp |
| HalAudioDevice.PloytecAudioDevice.RebuildStreamConfigsForBufferSize | mac-hal/ploytechal/PloytecAudioDevice.cpp:241-255 | each direction with channels gets the configuration of the current buffer frame size; the other keeps its old one |
| HalAudioDevice.PloytecAudioDevice.AttachBuffers | mac-hal/ploytechal/PloytecAudioDevice.cpp:30-45 | the I/O handler follows the transfer mode and the device points at the driver's two buffers |
| HalAudioDevice.PloytecAudioDevice.Init | mac-hal/ploytechal/PloytecAudioDevice.cpp:17-67 | the handler of the transfer mode, the period, the two buffers, the channel counts, a buffer frame size of 2560, stream configurations rebuilt from cleared ones and both hardware counters at 0 |
| HalAudioDevice.PloytecAudioDevice.SetChannels | mac-hal/ploytechal/PloytecAudioDevice.cpp:46-62 | the channel counts, a buffer frame size of 2560 and stream configurations rebuilt from cleared ones |
| HalAudioDevice.PloytecAudioDevice.StoreTimestamp | mac-hal/ploytechal/PloytecAudioDevice.h:94-99 | the sequence moves on by two and the new sample and host time are published |
| HalAudioDevice.PloytecAudioDevice.StartIO | mac-hal/ploytechal/PloytecAudioDevice.cpp:71-79 | I/O on, both directions inactive, the zero timestamp anchored at the output counter and the current host time, and a new seed |
| HalAudioDevice.PloytecAudioDevice.StopIO | mac-hal/ploytechal/PloytecAudioDevice.cpp:81-86 | I/O off, a new seed, and the driver's ClearOutputBuffer: every PCM byte of its transmit buffer zeroed, every other byte kept |
| HalAudioDevice.PloytecAudioDevice.Playback | mac-hal/ploytechal/PloytecAudioDevice.cpp:88-99 | currentpos is the step of the old output counter within its period; the counter advances by frameCount modulo 2^64; the zero timestamp is re-anchored at the new period boundary exactly when the counter crossed one |
| HalAudioDevice.PloytecAudioDevice.Capture | mac-hal/ploytechal/PloytecAudioDevice.cpp:101-105 | currentpos is the step of the old input counter within its period and the counter advances by frameCount modulo 2^64; the timestamp is untouched |
| HalAudioDevice.PloytecAudioDevice.GetZeroTimeStamp | mac-hal/ploytechal/PloytecAudioDevice.cpp:109-115 | the answer is the last published sample and host time and the current seed |
| HalAudioDevice.PloytecAudioDevice.WriteMix | mac-hal/ploytechal/PloytecAudioDevice.cpp:119-140 | the output direction becomes active and the cycle's frames are encoded into the output ring of the active handler with its gap bytes kept |
| HalAudioDevice.PloytecAudioDevice.ReadInput | mac-hal/ploytechal/PloytecAudioDevice.cpp:141-153 | CoreAudio's input buffer receives the decoded cycle from the input ring of the active handler, and nothing past the cycle changes |
| HalAudioDevice.InputCapacity | mac-hal/ploytechal/PloytecAudioDevice.cpp:34-36 | the input capacity is a whole number of 80-frame packets: as many 5120-byte packets as the receive buffer holds, and not one more |
| HalAudioDevice.OutputCapacity | mac-hal/ploytechal/PloytecAudioDevice.cpp:38-41 | the output capacity is a whole number of 80-frame packets: as many 4096-byte (bulk) or 3856-byte (interrupt) packets as the transmit buffer holds, and not one more |
| HalAudioDevice.SignExtend24 | mac-hal/ploytechal/PloytecAudioDevice.cpp:378-380 | every sample the decoder builds fits 24 bits |
| HalAudioDevice.PeriodPosition | mac-hal/ploytechal/PloytecAudioDevice.cpp:91 | currentpos never points past the counter's place in its period: currentpos × frameCount ≤ counter mod period |
| HalAudioDevice.WriteInterruptFrame | mac-hal/ploytechal/PloytecAudioDevice.cpp:173-178 | one iteration of the interrupt batch loop: the frame goes to blockBase + 48 × frameInBlock, plus 2 for the tenth frame of a block, which is its ring slot, extending the frames written so far by one |
| HalAudioDevice.WriteBatch | mac-hal/ploytechal/PloytecAudioDevice.cpp:129-179 | one batch inside one block, by the bulk or the interrupt loop as the layout says, extends the frames written at their ring slots by the batch |
| HalAudioDevice.WriteRunBatch | mac-hal/ploytechal/PloytecAudioDevice.cpp:129-137 | one pass of the inner loop writes a batch of at least one and at most the remaining frames, all in the current block, and extends the frames written at their ring slots by it |
| HalAudioDevice.ClampAsWritten | mac-hal/ploytechal/PloytecAudioDevice.cpp:261-262 | as written the clamp yields −0x800000..0x800000, and 0x800000, one past the 24-bit range, exactly for a float of 1.0 |
| HalAudioDevice.Clamp | mac-hal/ploytechal/PloytecAudioDevice.cpp:261-262 | the intended clamp stays in −0x800000..0x7FFFFF and agrees with the clamp as written on every float other than 1.0 |
| HalAudioDevice.FullScaleWraps | mac-hal/ploytechal/PloytecAudioDevice.cpp:257-384 | the sample the clamp as written makes of 1.0 does not fit 24 bits, and a capture frame carrying its encoding decodes to −0x800000: full scale positive comes back as full scale negative |
| HalAudioDevice.ClampedFrameRoundTrip | mac-hal/ploytechal/PloytecAudioDevice.cpp:257-384 | with the intended clamp, eight clamped floats of any value come back from the codec unchanged |
| HalAudioDevice.StoredFloat | mac-hal/ploytechal/PloytecAudioDevice.cpp:377-382 | the float DecodePloytecPCM stores for a sample that fits 24 bits, s / 2^23, lies in [−1, 1) |
| HalAudioDevice.StoredFloatClampsBack | mac-hal/ploytechal/PloytecAudioDevice.cpp:377-382 | the float stored for a 24-bit sample, passed back through the encoder's clamp (as written or corrected), gives the same sample, so the stored float determines the sample |
| MidiRing.Next | mac-hal/shared/PloytecSharedData.h:14-15 | the index after i is i + 1, and 0 after the last slot |
| MidiRing.Count | mac-hal/shared/PloytecSharedData.h:50-56 | the number of pending bytes is w − r, or w + 1024 − r when w has wrapped, and always below 1024 |
| MidiRing.Pending | mac-hal/shared/PloytecSharedData.h:50-56 | the pending bytes are as many as the count |
| MidiRing.EmptyIff | mac-hal/ploytechal/PloytecDriver.cpp:428-430 | the ring is empty exactly when the two indices are equal |
| MidiRing.FullIff | mac-hal/ploytechal/PloytecDriver.cpp:468-469 | the ring holds 1023 bytes, its capacity, exactly when the slot after w is r |
| MidiRing.PopFront | mac-hal/ploytechal/PloytecDriver.cpp:428-433 | the byte at r is the oldest pending byte, and advancing r drops exactly that byte |
| MidiRing.PushBack | mac-hal/ploytechal/PloytecDriver.cpp:468-469 | storing a byte at w and advancing w appends it when the ring is not full |
| MidiRing.WriteSlotInvisible | mac-hal/ploytecusb/PloytecUSB.cpp:503-507 | the slot at w is not pending, so a read into it changes nothing a consumer sees |
| MidiRing.OverrunEmpties | mac-hal/Ozzy/PloytecUSB.cpp:326-335 | advancing w past the last free slot of a full ring makes all 1023 queued bytes unreadable |
| MidiRing.AdmitPrefix | mac-hal/ploytechal/PloytecDriver.cpp:462-472 | a checked producer keeps the longest prefix of the offered bytes that fits and drops the rest |
| MidiRing.AdmitSnoc | mac-hal/ploytechal/PloytecDriver.cpp:466-470 | offering one more byte appends it exactly when the ring is below capacity |
| MidiRing.OverrunVersusAdmit | mac-hal/Ozzy/PloytecUSB.cpp:326-335 | below capacity the unchecked commit equals the checked one; on a full ring the checked commit drops the new byte while the unchecked one loses all 1023 queued bytes |
| MidiRing.NonIdle | mac-hal/ploytechal/PloytecDriver.cpp:466-467 | the filter keeps the bytes of a transfer other than 0xFD, in order |
| MidiRing.NonIdleSnoc | mac-hal/ploytechal/PloytecDriver.cpp:466-467 | filtering one more byte appends it exactly when it is not 0xFD |
| MidiRing.NonIdleKeepsData | mac-hal/ploytechal/PloytecDriver.cpp:466-467 | a transfer without 0xFD bytes passes the filter unchanged |
| MidiRing.Ring.Contents | mac-hal/shared/PloytecSharedData.h:50-56 | the queued bytes never exceed the capacity |
| MidiRing.Ring.Pop | mac-hal/ploytechal/PloytecDriver.cpp:425-431 | an empty ring gives 0xFD and is left as it is; otherwise the oldest byte is taken and r moves one slot on; w is untouched |
| MidiRing.Ring.Push | mac-hal/ploytechal/PloytecDriver.cpp:468-469 | a checked producer step: the byte is appended unless the ring is full, in which case it is dropped; r is untouched |
| MidiRing.Ring.ReceiveAtWriteSlot | mac-hal/ploytecusb/PloytecUSB.cpp:503-507 | a one-byte read into the slot at w leaves the queued bytes as they were |
| MidiRing.Ring.CommitChecked | mac-hal/ploytecusb/PloytecUSB.cpp:516-527 | a received 0xFD is ignored; any other byte is appended unless the ring is full |
| MidiRing.Ring.CommitUnchecked | mac-hal/Ozzy/PloytecUSB.cpp:326-335 | any byte other than 0xFD moves w to the slot after the read slot; below capacity that appends the byte, and on a full ring it loses every queued byte |
| MidiRing.Drop | mac-hal/ploytechal/PloytecDriver.cpp:425-431 | after n consumer steps the queue has lost its first n bytes, or is empty once they are used up |
| MidiRing.DropStep | mac-hal/ploytechal/PloytecDriver.cpp:425-431 | each consumer step takes the next byte, or 0xFD once the queue is used up |
| MidiRing.PopToSlot | mac-hal/ploytecusb/PloytecUSB.cpp:428-434 | the MIDI byte of an output packet is the oldest queued byte, or 0xFD from an empty ring, and nothing else in the packet changes |
| MidiRing.Admit | mac-hal/ploytechal/PloytecDriver.cpp:466-469 | a checked producer only appends: the queue keeps its old bytes in front, gains at most the offered bytes, and never grows past the ring's capacity |
| MidiRing.Overrun | mac-hal/Ozzy/PloytecUSB.cpp:330-331 | an unchecked commit never leaves more than the capacity queued, and a non-idle byte empties the queue exactly when the ring was full |
| SharedMemory.PacketSlot | mac-hal/ploytecusb/PloytecUSB.cpp:424 | the slot `index & kPacketMask` is below 128, is the index itself for the first 128 packets, and differs from the index by a multiple of 128 |
| SharedMemory.SlotRotation | mac-hal/shared/PloytecSharedData.h:22-23 | consecutive packets use consecutive slots, slot 127 being followed by slot 0 |
| SharedMemory.SlotsDistinct | mac-hal/shared/PloytecSharedData.h:22-23 | two packets fewer than 128 apart never share a buffer slot |
| SharedMemory.ZeroAndPrefillPackets | mac-hal/ploytecusb/PloytecUSB.cpp:348-358 | after the memset and the prefill loop every byte of the output buffer is 0xFD exactly at the two MIDI bytes of each packet (offset 480 of every 512 in bulk mode, 432 of every 482 in interrupt mode) and 0 elsewhere |
| SharedMemory.ClockValue | mac-hal/ploytecusb/PloytecUSB.cpp:462-463 | after k ready completions the hardware clock is 80·k while that stays below 2^64 |
| SharedMemory.PublishEveryEighth | mac-hal/ploytecusb/PloytecUSB.cpp:465-468 | the clock is a multiple of 640 exactly on every eighth completion, so a zero timestamp is published then and only then |
| SharedMemory.SequenceParity | mac-hal/ploytecusb/PloytecUSB.cpp:471-475 | starting from an even sequence, the first store makes it odd and the second even again (modulo 2^32) |
| SharedMemory.Shared.constructor | mac-hal/ploytecusb/PloytecUSB.cpp:102 | the freshly cleared shared memory has no hardware present, the driver not ready, a zero sequence, zero rate, times and write position |
| SharedMemory.Shared.PublishTimestamp | mac-hal/ploytecusb/PloytecUSB.cpp:470-475 | the seqlock writer stores seq+1, then the sample and host times, then seq+2, and changes nothing else |
| SharedMemory.Tick | mac-hal/ploytecusb/PloytecUSB.cpp:462-477 | one ready completion advances the clock by 80 (mod 2^64) and publishes the new clock with the host time exactly when it is a multiple of 640; otherwise the shared timestamp is untouched |
| UsbControl.RateRequests | mac-hal/ploytecusb/PloytecUSB.cpp:602-607 | the five SET_CUR requests go to the endpoints 0x86, 0x05, 0x86, 0x05, 0x86 in that order |
| UsbControl.DecodeFirmware | mac-hal/ploytecusb/PloytecUSB.cpp:534 | the version is ID = byte 0, major 1, and minor and patch the decimal tens and units of byte 2 |
| UsbControl.FirmwareDeterminedBy | mac-hal/ploytecusb/PloytecUSB.cpp:534 | two replies decode to the same version if and only if their bytes 0 and 2 agree |
| UsbControl.EncodeStatus | mac-hal/ploytecusb/PloytecUSB.h:50-57 | the six status masks are disjoint bits: any set of flags written as a byte is read back unchanged, and bits 3 and 6 are never set |
| UsbControl.StatusKeepsFlagBits | mac-hal/ploytecusb/PloytecUSB.cpp:552-559 | reading a status byte looks at the six flag bits only; re-encoding gives the byte masked with 0xB7 |
| UsbControl.WriteStatusRequest | mac-hal/ploytecusb/PloytecUSB.cpp:564-568 | WriteHardwareStatus is a vendor OUT request 'I' with the value in wValue, index 0 and no data |
| UsbControl.StartupRequests | macos/Devices/Ploytec/PloytecEngine.cpp:57-69 | the startup handshake is the firmware read, a rate read, the five SET_CUR requests, a second rate read, the status write 0xFFB2 and the status read, in that order |
| UsbControl.ReadFrameRate | mac-hal/ploytecusb/PloytecUSB.cpp:570-595 | the Xone:4D reports 96 kHz without a request; otherwise a rate exists exactly when the request succeeded with three bytes, and it is their little-endian value |
| UsbControl.FrameRateRoundTrip | mac-hal/ploytecusb/PloytecUSB.cpp:570-610 | reading back the three bytes SetHardwareFrameRate sends yields the rate, for every rate below 2^24 |
| UsbControl.ControlChannel.constructor | mac-hal/ploytecusb/PloytecUSB.h:15-16 | a channel starts with distinct transmit and receive buffers and no requests sent |
| UsbControl.ControlChannel.SetFrameRate | mac-hal/ploytecusb/PloytecUSB.cpp:597-610 | the low 24 bits of the rate are written little-endian to the transmit buffer, all five requests are sent, and only the last answer decides the result |
| UsbControl.ControlChannel.GetFrameRate | mac-hal/ploytecusb/PloytecUSB.cpp:570-595 | on the 4D nothing is sent and the buffer is untouched; otherwise one GET_CUR is logged, the reply lands in the receive buffer and the result is ReadFrameRate of it |
| UsbControl.ControlChannel.ReadFirmware | mac-hal/ploytecusb/PloytecUSB.cpp:530-537 | one 'V' request; without an answer no version and the buffer unchanged, with one the reply lands in the buffer and the version is decoded from its first three bytes |
| UsbControl.ControlChannel.ReadStatus | mac-hal/ploytecusb/PloytecUSB.cpp:539-562 | one 'I' request; with an answer the status byte lands in byte 0 of the receive buffer and the reported flags are exactly its six flag bits |
| UsbControl.ControlChannel.WriteStatus | mac-hal/ploytecusb/PloytecUSB.cpp:564-568 | one write request carrying the value is logged and the device's answer is the result |
| UsbControl.ControlChannel.Receive | mac-hal/ploytecusb/PloytecUSB.cpp:533 | a control-in reply overwrites the start of the receive buffer and leaves the rest |
| UsbControl.StrictMode | mac-hal/ploytechal/PloytecDriver.cpp:191-193 | the ploytechal driver selects bulk exactly for a bulk pipe and interrupt exactly for an interrupt pipe, and refuses any other pipe type |
| UsbControl.BulkOrInterrupt | mac-hal/ploytecusb/PloytecUSB.cpp:330 | the ploytecusb engine decides whenever it has the pipe's properties, bulk exactly for a bulk pipe and interrupt for every other type |
| UsbControl.DecodeStatus | mac-hal/ploytecusb/PloytecUSB.cpp:554-559 | the report shows no flag exactly when none of the six flag bits of the status byte is set |
| PloytecUsb.PacketSizeOut | mac-hal/ploytecusb/PloytecUSB.cpp:335-339 | an output packet is eight blocks of the transfer mode (4096 bytes in bulk, 3856 in interrupt mode), and 128 of them fit the shared output buffer |
| PloytecUsb.PacketBase | mac-hal/ploytecusb/PloytecUSB.cpp:424-425 | a packet's slot starts at a multiple of the stride equal to its slot number times the stride, and ends inside the 128-slot buffer |
| PloytecUsb.OutputOffset | mac-hal/ploytecusb/PloytecUSB.cpp:424-425 | SubmitPCMout takes a packet from a 4096-aligned slot that lies inside the output buffer, in both transfer modes |
| PloytecUsb.InputOffset | mac-hal/ploytecusb/PloytecUSB.cpp:395-396 | SubmitPCMin reads a packet into a 5120-byte slot that lies inside the input buffer |
| PloytecUsb.StartLeavesPcmSilent | mac-hal/ploytecusb/PloytecUSB.cpp:348-375 | after StartStreaming every byte outside the MIDI/UART bytes of the output buffer is 0 |
| PloytecUsb.StartSendsQueueInOrder | mac-hal/ploytecusb/PloytecUSB.cpp:371-374 | in bulk mode the initial packets carry the first queued midiOut bytes, one per packet and in order, then 0xFD once the queue is empty |
| PloytecUsb.InterruptSlotMissesIdle | mac-hal/ploytecusb/PloytecUSB.cpp:424-425 | in interrupt mode the packet of slot 1 starts at 4096 while the prefill lays out 482-byte blocks from 0, so that packet's UART byte is left at 0 instead of 0xFD |
| PloytecUsb.Engine.constructor | mac-hal/ploytecusb/PloytecUSB.h:80-83 | a new engine is in bulk mode with MIDI offset and packet sizes 0, no shutdown, zero counters and no transfers |
| PloytecUsb.Engine.DetectTransferMode | mac-hal/ploytecusb/PloytecUSB.cpp:325-333 | succeeds exactly when the pipe properties are known; then the mode is bulk for a bulk pipe, interrupt otherwise, and the MIDI offset 480 or 432; on failure nothing changes |
| PloytecUsb.Engine.ConfigureStreamingFormat | mac-hal/ploytecusb/PloytecUSB.cpp:335-339 | the output packet size is the mode's (4096 or 3856) and the input packet size 5120 |
| PloytecUsb.Engine.SubmitPCMin | mac-hal/ploytecusb/PloytecUSB.cpp:391-404 | one read of packetSizeIn bytes into the packet's input slot is queued |
| PloytecUsb.Engine.SubmitPCMout | mac-hal/ploytecusb/PloytecUSB.cpp:420-441 | in bulk mode the packet's MIDI byte becomes the oldest midiOut byte, which is consumed, or 0xFD, and the next byte 0xFD; interrupt packets are untouched; one write from the slot is queued |
| PloytecUsb.Engine.SubmitMIDIin | mac-hal/ploytecusb/PloytecUSB.cpp:503-513 | with shared memory a one-byte read into the midiIn slot at writeIndex is queued, without it nothing |
| PloytecUsb.Engine.PCMinComplete | mac-hal/ploytecusb/PloytecUSB.cpp:406-418 | during shutdown or after an abort nothing happens; otherwise the sequence advances and the packet two ahead of the completed one is read, even after an error |
| PloytecUsb.Engine.PCMoutComplete | mac-hal/ploytecusb/PloytecUSB.cpp:443-500 | during shutdown nothing; unless aborted the packet two ahead is submitted with its MIDI byte; only a success steps the clock and publishes the timestamp, any other result leaves both alone |
| PloytecUsb.Engine.AdvanceClock | mac-hal/ploytecusb/PloytecUSB.cpp:452-477 | the anchor is taken when the driver has just become ready at clock 0; a ready driver adds 80 frames and publishes the clock under the seqlock on each multiple of 640 |
| PloytecUsb.Engine.MIDIinComplete | mac-hal/ploytecusb/PloytecUSB.cpp:515-528 | a successful one-byte read of a byte other than 0xFD is admitted to the midiIn ring only when the ring has room; the reader is never moved; any result but an abort re-arms the read |
| PloytecUsb.Engine.ReadFirmwareVersion | mac-hal/ploytecusb/PloytecUSB.cpp:530-537 | succeeds exactly with a device and an answer; the kept version is decoded from the reply; without a device nothing is sent |
| PloytecUsb.Engine.ReadHardwareStatus | mac-hal/ploytecusb/PloytecUSB.cpp:539-562 | reports flags exactly with a device and an answer, and they are the decoding of the status byte |
| PloytecUsb.Engine.WriteHardwareStatus | mac-hal/ploytecusb/PloytecUSB.cpp:564-568 | succeeds exactly with a device and an answer, and sends one write request only with a device |
| PloytecUsb.Engine.GetHardwareFrameRate | mac-hal/ploytecusb/PloytecUSB.cpp:570-595 | succeeds exactly with a device, shared memory and a readable rate (always on the 4D), and then stores that rate in the shared memory; the timestamp is untouched |
| PloytecUsb.Engine.SetHardwareFrameRate | mac-hal/ploytecusb/PloytecUSB.cpp:597-610 | without a device nothing is sent and the result is false; otherwise the rate's three bytes go out in the five SET_CUR requests and the last answer is the result |
| PloytecUsb.Engine.StartStreaming | mac-hal/ploytecusb/PloytecUSB.cpp:341-378 | succeeds exactly with a device and shared memory; then the input buffer is zero, the output buffer holds the prefill with the first queued MIDI bytes, the counters and timestamp are reset, one MIDI read and urbCount transfers per direction are queued, and driverReady is set |
| PloytecUsb.Engine.StopStreaming | mac-hal/ploytecusb/PloytecUSB.cpp:380-389 | shutdown is raised and the result is true |
| PloytecUsb.Engine.ResetCounters | mac-hal/ploytecusb/PloytecUSB.cpp:360-368 | both sequences, the clock and the last reported zero are 0, readiness is forgotten, and the shared sample time, host time and write position are 0 |
| PloytecUsb.Engine.SubmitInitial | mac-hal/ploytecusb/PloytecUSB.cpp:371-374 | the loop over the first urbCount packets queues one input and one output transfer each and stamps the MIDI bytes of the output packets in order |
| PloytecUsb.Engine.StartPacket | mac-hal/ploytecusb/PloytecUSB.cpp:372-373 | one round of the start loop extends the stamped output buffer and the queued transfers from i to i+1 packets |
| PloytecUsb.InitialIn | mac-hal/ploytecusb/PloytecUSB.cpp:371-374 | the initial input transfers are those of packets 0 to n-1, in order |
| PloytecUsb.InitialOut | mac-hal/ploytecusb/PloytecUSB.cpp:371-374 | the initial output transfers are those of packets 0 to n-1 from their slots, in order |
| PloytecUsb.StartStep | mac-hal/ploytecusb/PloytecUSB.cpp:427-436 | stamping the MIDI pair of packet i into a buffer holding the start image for i packets gives the start image for i+1 packets |
| PloytecUsb.Engine.StartWithMemory | mac-hal/ploytecusb/PloytecUSB.cpp:342-378 | with the device open and shared memory mapped, StartStreaming always succeeds: driver ready, buffers zeroed except the prefilled pairs stamped by the start packets, counters and shared clock at 0, and in bulk mode one queued MIDI byte consumed per start packet |
| OzzyUsb.OzzyMode | mac-hal/Ozzy/PloytecUSB.cpp:247-249 | the mode is bulk exactly when GetPipeProperties reports a bulk pipe; a failed call leaves the type 0 and so means interrupt |
| OzzyUsb.OzzyModeAgrees | mac-hal/Ozzy/PloytecUSB.cpp:249 | where the pipe properties are known, this driver and the ploytecusb driver choose the same transfer mode |
| OzzyUsb.PacketBlocksPrefilled | mac-hal/Ozzy/PloytecUSB.cpp:266-267 | with packets laid out at slot × PacketSizeOut, both MIDI/UART bytes of each of the eight blocks of every packet are prefilled with 0xFD |
| OzzyUsb.Engine.constructor | mac-hal/Ozzy/PloytecUSB.cpp:39-51 | a new engine is in bulk mode with MIDI offset and packet sizes 0, not shut down, all sequences and the clock at 0, nothing queued |
| OzzyUsb.Engine.DetectTransferMode | mac-hal/Ozzy/PloytecUSB.cpp:244-253 | without the PCM-out interface nothing changes and the result is false; otherwise the mode follows the pipe type and the MIDI byte sits at 480 (bulk) or 432 (interrupt) |
| OzzyUsb.Engine.ConfigureStreamingFormat | mac-hal/Ozzy/PloytecUSB.cpp:255-259 | the output packet is 4096 bytes in bulk and 3856 in interrupt mode, the input packet 5120 |
| OzzyUsb.Engine.SubmitPCMin | mac-hal/Ozzy/PloytecUSB.cpp:282-285 | one read of packetSizeIn bytes at (index mod 128) × packetSizeIn is queued |
| OzzyUsb.Engine.SubmitPCMout | mac-hal/Ozzy/PloytecUSB.cpp:291-301 | the packet at (index mod 128) × packetSizeOut is written; in bulk mode its MIDI byte first becomes the oldest midiOut byte, which is consumed, or 0xFD from an empty ring, and the byte after it 0xFD; in interrupt mode the buffer is untouched |
| OzzyUsb.Engine.SubmitMIDIin | mac-hal/Ozzy/PloytecUSB.cpp:321-325 | a one-byte read into the midiIn slot at writeIndex is queued |
| OzzyUsb.Engine.PCMinComplete | mac-hal/Ozzy/PloytecUSB.cpp:286-289 | during shutdown or after an abort nothing changes; otherwise the input sequence counts on modulo 2^64 and the packet two ahead of the old sequence is read |
| OzzyUsb.Engine.PCMoutComplete | mac-hal/Ozzy/PloytecUSB.cpp:302-319 | during shutdown or after an abort nothing is submitted; otherwise the packet two ahead goes out; a success while the driver is ready advances the clock by 80 frames, and on a multiple of 640 publishes sample time and host time between the two sequence stores seq + 1 and seq + 2 |
| OzzyUsb.Engine.MIDIinComplete | mac-hal/Ozzy/PloytecUSB.cpp:326-335 | a successful one-byte read of a byte other than 0xFD advances writeIndex without a fullness test; the reader's index is never touched; every result but an abort re-arms the read |
| OzzyUsb.Engine.ReadFirmwareVersion | mac-hal/Ozzy/PloytecUSB.cpp:337-343 | one 'V' request; an answered one sets the firmware from the first three reply bytes, an unanswered one leaves it and returns false |
| OzzyUsb.Engine.ReadHardwareStatus | mac-hal/Ozzy/PloytecUSB.cpp:345-358 | one 'I' request; flags are reported exactly when it is answered, and they are the decoded status byte |
| OzzyUsb.Engine.WriteHardwareStatus | mac-hal/Ozzy/PloytecUSB.cpp:386-389 | one 'I' write of the value; its answer is the result |
| OzzyUsb.Engine.GetHardwareFrameRate | mac-hal/Ozzy/PloytecUSB.cpp:360-376 | succeeds exactly with shared memory and a rate that can be read (96000 on the 4D, otherwise a complete three-byte little-endian answer); only then is the shared sample rate replaced, and nothing else in the shared memory changes |
| OzzyUsb.Engine.SetHardwareFrameRate | mac-hal/Ozzy/PloytecUSB.cpp:378-384 | the rate goes out little-endian in the low 24 bits in five SET_CUR requests to endpoints 0x86, 0x05, 0x86, 0x05, 0x86, and only the last answer decides the result |
| OzzyUsb.Engine.StartStreaming | mac-hal/Ozzy/PloytecUSB.cpp:261-273 | succeeds exactly with shared memory; then the input buffer is zero, the output buffer holds the prefilled pairs stamped by urbCount start packets, counters, anchor, published sample time and HAL position are 0, one MIDI read and urbCount transfers per direction are queued, and driverReady is set; otherwise nothing is queued |
| OzzyUsb.Engine.StopStreaming | mac-hal/Ozzy/PloytecUSB.cpp:275-280 | shutdown is raised and the result is true |
| OzzyUsb.Engine.ResetCounters | mac-hal/Ozzy/PloytecUSB.cpp:268-269 | both sequences, the clock and the anchor are 0, readiness is forgotten, and the published sample time and HAL position are 0 |
| OzzyUsb.Engine.SubmitInitial | mac-hal/Ozzy/PloytecUSB.cpp:270 | the start loop queues packets 0 to urbCount − 1 in and out, in order, and stamps their MIDI pairs from the midiOut queue in bulk mode |
| OzzyUsb.Engine.StartPacket | mac-hal/Ozzy/PloytecUSB.cpp:270 | one round of the start loop extends the stamped output image and both transfer logs by packet i |
| OzzyUsb.Engine.StartWithMemory | mac-hal/Ozzy/PloytecUSB.cpp:260-272 | with shared memory mapped, StartStreaming always succeeds: driver ready, buffers zeroed except the prefilled pairs stamped by the start packets, counters and shared clock at 0, and in bulk mode one queued MIDI byte consumed per start packet |
| KextUsb.KextFrameRate | legacy/mac-hal/OzzyKext/PloytecUSB.cpp:67-74 | a rate exists exactly when the request is answered, and it is the three reply bytes read little-endian, with no 4D special case |
| KextUsb.Engine.constructor | legacy/mac-hal/OzzyKext/PloytecUSB.h:43-54 | a new engine is not running, in interrupt mode with packet size, MIDI offset and clock 0, and has sent and queued nothing |
| KextUsb.Engine.ConfigureHardware | legacy/mac-hal/OzzyKext/PloytecUSB.cpp:140-170 | succeeds exactly when an interface was found and both PCM pipes exist; then interrupt mode with 3856-byte packets and the UART bytes at 432 is fixed, the ten start-up control requests go out in order and streaming starts; otherwise nothing is sent or started |
| KextUsb.Engine.StartStreaming | legacy/mac-hal/OzzyKext/PloytecUSB.cpp:186-217 | the engine runs afterwards; without shared memory nothing is queued; with it the hardware is present and the driver ready, clock and positions are 0, the input buffer is zero, the output buffer holds the 0xFD pairs, and packets 0 and 1 are queued out and in |
| KextUsb.Engine.StartWithMemory | legacy/mac-hal/OzzyKext/PloytecUSB.cpp:190-215 | the shared-memory part of StartStreaming ends in the started state described for StartStreaming, leaves the midiOut reader untouched, and queues one MIDI read exactly when there is a MIDI pipe |
| KextUsb.Engine.SubmitInitial | legacy/mac-hal/OzzyKext/PloytecUSB.cpp:209-212 | packets 0 and 1 are queued out and in, and in interrupt mode the output buffer and the midiOut reader stay as they were |
| KextUsb.Engine.SubmitPCMout | legacy/mac-hal/OzzyKext/PloytecUSB.cpp:219-252 | nothing happens unless running; otherwise the packet at (index mod 128) × packetSizeOut is queued and, in bulk mode, carries the oldest midiOut byte (consumed) or 0xFD, then 0xFD |
| KextUsb.Engine.SubmitPCMin | legacy/mac-hal/OzzyKext/PloytecUSB.cpp:286-303 | a 5120-byte read into the packet's input slot is queued exactly when running |
| KextUsb.Engine.SubmitMIDIin | legacy/mac-hal/OzzyKext/PloytecUSB.cpp:312-327 | a one-byte read at midiIn's writeIndex is queued exactly when running with a MIDI pipe |
| KextUsb.Engine.PCMoutComplete | legacy/mac-hal/OzzyKext/PloytecUSB.cpp:254-284 | while running the packet index + 2 is submitted whatever the status; a success with the driver ready advances the clock by 80 frames and on a multiple of 640 publishes sample and host time between the sequence stores seq + 1 and seq + 2 |
| KextUsb.Engine.PCMinComplete | legacy/mac-hal/OzzyKext/PloytecUSB.cpp:305-310 | packet index + 2 is read only after a success while running |
| KextUsb.Engine.MIDIinComplete | legacy/mac-hal/OzzyKext/PloytecUSB.cpp:329-340 | while running, a success with a byte other than 0xFD in the aimed-at slot sets writeIndex to the slot after it without a fullness test; otherwise writeIndex stays; the read is re-armed after any status while running; the reader's index is never touched |
| KextUsb.Engine.ReadFirmwareVersion | legacy/mac-hal/OzzyKext/PloytecUSB.cpp:52-57 | one 'V' request; a version is reported exactly when answered, with the reply's ID byte and minor × 10 + patch equal to its third byte |
| KextUsb.Engine.ReadHardwareStatus | legacy/mac-hal/OzzyKext/PloytecUSB.cpp:59-65 | one 'I' request; flags are reported exactly when answered, and they encode back to the status byte's six flag bits |
| KextUsb.Engine.GetHardwareFrameRate | legacy/mac-hal/OzzyKext/PloytecUSB.cpp:67-74 | one GET_CUR request; the rate is that of KextFrameRate |
| KextUsb.Engine.SetHardwareFrameRate | legacy/mac-hal/OzzyKext/PloytecUSB.cpp:76-91 | the rate's low 24 bits go out little-endian in five SET_CUR requests to 0x86, 0x05, 0x86, 0x05, 0x86, and the last answer is the result |
| KextUsb.Engine.WriteHardwareStatus | legacy/mac-hal/OzzyKext/PloytecUSB.cpp:93-97 | one 'I' write of the value, whose answer is the result |
| KextUsb.Engine.Stop | legacy/mac-hal/OzzyKext/PloytecUSB.cpp:172-184 | the engine stops running, which turns every later submission and completion into a no-op |
| PloytecEngine.SlotBase | macos/Devices/Ploytec/PloytecEngine.cpp:229-232 | packet index starts at a multiple of 8192 whose quotient is its slot (index mod 128), and the whole 8192-byte slot lies inside the 1 MiB buffer |
| PloytecEngine.PairInSlot | macos/Devices/Ploytec/PloytecEngine.cpp:81-91 | both UART bytes of each of the eight blocks of a packet lie inside its 8192-byte slot, in either mode |
| PloytecEngine.PrefillStep | macos/Devices/Ploytec/PloytecEngine.cpp:88-91 | one step of the pre-fill loop, pair 8p + s, adds exactly the two bytes at slot base + s × stride + offset to the pre-filled bytes |
| PloytecEngine.PrefillCoversEveryBlock | macos/Devices/Ploytec/PloytecEngine.cpp:84-93 | after the whole loop both UART bytes of every block of every one of the 128 slots are pre-filled |
| PloytecEngine.PrefilledIsPair | macos/Devices/Ploytec/PloytecEngine.cpp:84-93 | conversely a pre-filled byte is one of the two UART bytes of a block of its slot, so no PCM byte is touched |
| PloytecEngine.OzzyShared.constructor | macos/Shared/OzzySharedData.h:40-50 | the format fields of a fresh shared block are 0 until an engine publishes them, and the block holds the two 1 MiB PCM buffers and the 512-byte MIDI landing buffer |
| PloytecEngine.Engine.Mode | macos/Devices/Ploytec/PloytecEngine.cpp:81-82 | the block layout is bulk (512-byte stride, UART at 480) exactly when the transfer type is bulk |
| PloytecEngine.Engine.constructor | macos/Devices/Ploytec/PloytecEngine.cpp:16-40 | a new engine is in interrupt mode with the 3856-byte output packet, clock 0 and nothing submitted |
| PloytecEngine.Engine.Start | macos/Devices/Ploytec/PloytecEngine.cpp:42-107 | without the shared block nothing is sent and the result is false; otherwise the format fields are published and the handshake runs, the result is the answer to the last SET_CUR, and on success the device is present and ready, the clock is 0, every UART pair is 0xFD with nothing else changed, and packets 0 and 1 are submitted on each pipe; on failure nothing after the rate change happens |
| PloytecEngine.Engine.PublishFormat | macos/Devices/Ploytec/PloytecEngine.cpp:49-54 | sync every 640 frames, the bulk flag, 80 frames of 10 samples, 48 bytes out and 64 in per frame are published |
| PloytecEngine.Engine.BringUp | macos/Devices/Ploytec/PloytecEngine.cpp:72-103 | the device is marked present and ready, the clock and the published sample time restart at 0, the output buffer is pre-filled and the kick-start submissions are made |
| PloytecEngine.Engine.RunHandshake | macos/Devices/Ploytec/PloytecEngine.cpp:57-69 | the requests go out in the start-up order and the result is the answer to the last SET_CUR; a refused one ends the exchange after the five rate requests |
| PloytecEngine.Engine.QueryBeforeRate | macos/Devices/Ploytec/PloytecEngine.cpp:57-58 | the firmware request and then a rate request are sent |
| PloytecEngine.Engine.QueryAfterRate | macos/Devices/Ploytec/PloytecEngine.cpp:65-69 | a rate request, the status write of 0xFFB2 and the status read are sent, in that order |
| PloytecEngine.Engine.PrefillOutput | macos/Devices/Ploytec/PloytecEngine.cpp:84-93 | both UART bytes of every block of every slot become 0xFD and every other byte keeps its value (the buffer is not cleared first) |
| PloytecEngine.Engine.PrefillPair | macos/Devices/Ploytec/PloytecEngine.cpp:89-91 | one inner step sets the pair of block s of slot p to 0xFD and keeps every other byte |
| PloytecEngine.Engine.Kickstart | macos/Devices/Ploytec/PloytecEngine.cpp:96-100 | packets 0 and 1 are submitted in, out and MIDI-in, in that order |
| PloytecEngine.Engine.Stop | macos/Devices/Ploytec/PloytecEngine.cpp:109-118 | with the shared block the driver is marked not ready and the device absent, and the rate and timestamp are kept |
| PloytecEngine.Engine.ProcessMIDIOutput | macos/Devices/Ploytec/PloytecEngine.cpp:120-149 | the first UART byte of the first block of the packet's slot receives the oldest midiOut byte, which is consumed, or 0xFD from an empty ring; only that byte of the buffer changes |
| PloytecEngine.Engine.ProcessMIDIInput | macos/Devices/Ploytec/PloytecEngine.cpp:151-167 | the first min(bytes, 512) bytes of the landing buffer are offered in order to midiIn, each dropped when the ring is full; the reader's index is never touched |
| PloytecEngine.Engine.UpdateTimestamp | macos/Devices/Ploytec/PloytecEngine.cpp:212-226 | while the driver is ready the clock advances by 80 frames and each multiple of 640 is published with the host time between the stores seq + 1 and seq + 2; otherwise nothing changes |
| PloytecEngine.Engine.OnPacketComplete | macos/Devices/Ploytec/PloytecEngine.cpp:169-210 | without a bus or on another pipe nothing happens; otherwise packet finished + 2 (modulo 2^32) is resubmitted on the same pipe, an output completion first stepping the clock and loading its MIDI byte, a MIDI-in completion first handing the received bytes to midiIn; the status is ignored |
| PloytecEngine.Engine.CompleteOutput | macos/Devices/Ploytec/PloytecEngine.cpp:178-192 | an output completion steps the clock, loads the MIDI byte of packet next and submits it from its slot |
| PloytecEngine.Engine.CompleteMidiIn | macos/Devices/Ploytec/PloytecEngine.cpp:203-209 | a MIDI-in completion admits the received bytes to midiIn and submits the read again as next |
| PloytecEngine.Engine.SubmitPCMOut | macos/Devices/Ploytec/PloytecEngine.cpp:228-235 | packet index goes out from the start of its slot with the output packet size |
| PloytecEngine.Engine.SubmitPCMIn | macos/Devices/Ploytec/PloytecEngine.cpp:237-248 | packet index is read into the start of its slot, 5120 bytes |
| PloytecEngine.Engine.SubmitMIDIIn | macos/Devices/Ploytec/PloytecEngine.cpp:250-255 | a read into the 512-byte landing buffer carrying index is submitted |
| PloytecEngine.Engine.ReadFirmwareVersion | macos/Devices/Ploytec/PloytecEngine.cpp:261-266 | one 'V' request; the result is whether it was answered |
| PloytecEngine.Engine.ReadHardwareStatus | macos/Devices/Ploytec/PloytecEngine.cpp:268-281 | one 'I' request; the result is whether it was answered |
| PloytecEngine.Engine.GetHardwareFrameRate | macos/Devices/Ploytec/PloytecEngine.cpp:283-289 | one GET_CUR of the rate, which is only logged; the result is whether it was answered |
| PloytecEngine.Engine.SetHardwareFrameRate | macos/Devices/Ploytec/PloytecEngine.cpp:291-302 | the rate's low 24 bits go out little-endian with five SET_CUR requests to 0x86, 0x05, 0x86, 0x05, 0x86; only the last answer is the result |
| PloytecEngine.Engine.WriteHardwareStatus | macos/Devices/Ploytec/PloytecEngine.cpp:304-307 | one 'I' write carrying the value; the result is whether it was answered |
| PloytecEngine.PairAddress | macos/Devices/Ploytec/PloytecEngine.cpp:89 | for each of the eight blocks, both UART bytes of the block lie inside its logical packet's slot |
| PloytecDriver.SetRateRequests | mac-coreaudio/PloytecDriver/PloytecDriver.cpp:418-453 | the first n SET_CUR requests of SetHWSampleRate, one per endpoint in the order 0x86, 0x05, 0x86, 0x05, 0x05, 0x86 |
| PloytecDriver.RateTable | mac-coreaudio/PloytecDriver/PloytecDriver.cpp:407-416 | the switch accepts exactly the supported rates 44100, 48000, 88200 and 96000, each giving its three-byte little-endian sampling frequency (the tables at lines 14-17); any other rate is refused |
| PloytecDriver.RateFromReplyExact | mac-coreaudio/PloytecDriver/PloytecDriver.cpp:386-398 | the comparison chain recognises a reply exactly when its first three bytes are the little-endian form of a supported rate, and then as that rate |
| PloytecDriver.RateRoundTrip | mac-coreaudio/PloytecDriver/PloytecDriver.cpp:386-412 | the bytes the setter sends for a supported rate are read back by the getter as that rate |
| PloytecDriver.LeadingSuccesses | mac-coreaudio/PloytecDriver/PloytecDriver.cpp:418-453 | the number of answers that succeed before the first refusal: all of them succeed and the next one, if any, is a refusal |
| PloytecDriver.EmptyDescriptorOverflows | mac-coreaudio/PloytecDriver/PloytecDriver.cpp:489-490 | as written, bLength 0 makes len 2^32 − 1 and the len + 1 allocation size wrap to 0 |
| PloytecDriver.NameLength | mac-coreaudio/PloytecDriver/PloytecDriver.cpp:489 | the character count leaves room for the two header bytes (2 × len + 2 ≤ bLength) and len + 1 never wraps |
| PloytecDriver.NameLengthAsWritten | mac-coreaudio/PloytecDriver/PloytecDriver.cpp:489 | for every bLength from 1 up the written length is the intended one, so only the empty descriptor differs |
| PloytecDriver.CString | mac-coreaudio/PloytecDriver/PloytecDriver.cpp:496 | the C string is the longest NUL-free prefix: its bytes are the source's, none is NUL, and it ends at a NUL or at the end |
| PloytecDriver.LowBytes | mac-coreaudio/PloytecDriver/PloytecDriver.cpp:492-493 | the copy takes the low byte of each of the first n UTF-16LE code units, byte 2i for character i |
| PloytecDriver.DecodeStringDescriptor | mac-coreaudio/PloytecDriver/PloytecDriver.cpp:489-497 | the copy loop yields the C string of the low bytes plus NUL: at most len characters, each the low byte of its code unit and none NUL, and a shorter name stops at a NUL low byte |
| PloytecDriver.PloytecDriver.constructor | mac-coreaudio/PloytecDriver/PloytecDriver.cpp:19-45 | a new driver has sent nothing and has no names, with distinct transmit and receive buffers of at least three bytes |
| PloytecDriver.PloytecDriver.GetHWSampleRate | mac-coreaudio/PloytecDriver/PloytecDriver.cpp:375-400 | one GET_CUR; a refused one returns false and leaves the caller's rate; otherwise the reply lands in the receive buffer and the result is true exactly when it is the little-endian form of a supported rate, which is then the rate |
| PloytecDriver.PloytecDriver.SetHWSampleRate | mac-coreaudio/PloytecDriver/PloytecDriver.cpp:402-455 | an unsupported rate is refused before any transfer; otherwise the table bytes go into the transmit buffer and the six SET_CUR requests are issued up to and including the first refusal, and the result is true exactly when all six succeed |
| PloytecDriver.PloytecDriver.GetHWManufacturer | mac-coreaudio/PloytecDriver/PloytecDriver.cpp:483-500 | without string descriptor 1 the name stays; otherwise it becomes the decoded descriptor |
| PloytecDriver.PloytecDriver.GetHWDeviceName | mac-coreaudio/PloytecDriver/PloytecDriver.cpp:502-519 | without string descriptor 2 the name stays; otherwise it becomes the decoded descriptor |
| PloytecDriver.SetRateRequest | mac-coreaudio/PloytecDriver/PloytecDriver.cpp:418-448 | each SET_CUR is the host-to-device twin of the GET_CUR request: the same sampling-frequency control and three-byte length, addressed to the given endpoint |
| PloytecDriver.RateFromReply | mac-coreaudio/PloytecDriver/PloytecDriver.cpp:386-398 | a recognised reply names a supported rate whose three little-endian bytes are the reply's first three bytes |
| PloytecDriver.AsWrittenNameLength | mac-coreaudio/PloytecDriver/PloytecDriver.cpp:489 | as written, the length is (bLength − 2) / 2 for a descriptor of at least two bytes, 0 for a one-byte descriptor (C division truncates −1/2 to 0) and 2^32 − 1 for an empty one (uint32 wrap-around) |
| XoneDB4Device.PacketUartBytes | mac-coreaudio/XoneDB4Driver/XoneDB4Device.cpp:433-440 | the eight UART bytes of packet p are bytes 432 and 433 of each of its four 482-byte blocks, the gap bytes of the interrupt layout |
| XoneDB4Device.XoneDB4Device.constructor | mac-coreaudio/XoneDB4Driver/XoneDB4Device.cpp:91-115 | a new device has buffer size and zero-timestamp period 2560, both directions stopped, no xruns, all counters 0, nothing submitted, and four distinct buffers |
| XoneDB4Device.XoneDB4Device.WriteEnd | mac-coreaudio/XoneDB4Driver/XoneDB4Device.cpp:220-240 | a write counter outside [t − (buffersize − n), t] counts one xrun and restarts at t − buffersize/2 modulo 2^64, otherwise it stays; then frame i of the cycle is encoded at slot (t + i) mod buffersize of the interrupt layout and no other byte of the output ring changes |
| XoneDB4Device.XoneDB4Device.BeginRead | mac-coreaudio/XoneDB4Driver/XoneDB4Device.cpp:241-254 | a read counter outside [t, t + (buffersize − n)] counts one xrun and restarts at t + buffersize/2 modulo 2^64, otherwise it stays; then frame i of the cycle is decoded from 64-byte input slot (t + i) mod buffersize into CoreAudio's input ring and nothing else there changes |
| XoneDB4Device.XoneDB4Device.MarkUartBytes | mac-coreaudio/XoneDB4Driver/XoneDB4Device.cpp:433-440 | the eight UART bytes of packet p become 0xFD and every other byte of the output ring keeps its value |
| XoneDB4Device.XoneDB4Device.SendPCMToDevice | mac-coreaudio/XoneDB4Driver/XoneDB4Device.cpp:424-464 | while playing, packet (counter mod buffersize) / 40 gets its UART bytes re-marked and is submitted, the zero timestamp rolls forward one buffer with the completion time when the position reached buffersize, and both counters advance by 40 frames; otherwise the empty packet is submitted and nothing else changes; the result is AsyncIO's |
| XoneDB4Device.XoneDB4Device.ReceivePCMfromDevice | mac-coreaudio/XoneDB4Driver/XoneDB4Device.cpp:466-490 | while recording, input packet (counter mod buffersize) / 32 is submitted and the counter advances by 32 frames modulo 2^64; otherwise the empty packet is submitted; the result is AsyncIO's |
| XoneDB4Device.XoneDB4Device.StartIO | mac-coreaudio/XoneDB4Driver/XoneDB4Device.cpp:323-329 | the zero timestamp and both USB counters restart at 0 and both directions start |
| XoneDB4Device.XoneDB4Device.StopIO | mac-coreaudio/XoneDB4Driver/XoneDB4Device.cpp:345-361 | both directions stop; the counters keep their values |
| XoneDB4Device.XoneDB4Device.ChangeBufferSize | mac-coreaudio/XoneDB4Driver/XoneDB4Device.cpp:367-373 | the buffer size and the zero-timestamp period both take the new size |
| XoneDB4Device.XoneDB4Device.PlaybackStatsFor | mac-coreaudio/XoneDB4Driver/XoneDB4Device.cpp:404-422 | the stats report both flags, the xruns and both USB counters, and each difference added to the client time gives back the USB counter modulo 2^64 |
| OzzyKext.Copied | macos/Backends/OzzyKext/OzzyKext.cpp:101-116 | the bytes written from the start of dest: at most maxLen of them, the string's first min(length, maxLen − 1) characters and then NUL, or NUL alone without a string |
| OzzyKext.CString | macos/Backends/OzzyKext/OzzyKext.cpp:111 | the C string a field holds is its prefix before the first NUL |
| OzzyKext.CStringOfTerminated | macos/Backends/OzzyKext/OzzyKext.cpp:111-115 | a NUL-terminated copy reads back as itself whatever follows it |
| OzzyKext.ReadBack | macos/Backends/OzzyKext/OzzyKext.cpp:99-118 | reading the field after the call gives the property string cut to maxLen − 1 characters, or "" when there is none |
| OzzyKext.GetRegistryString | macos/Backends/OzzyKext/OzzyKext.cpp:99-118 | nothing is written without a service, without a destination or for maxLen 0; otherwise dest begins with the copied bytes and the rest is untouched |
| OzzyKext.CopyText | macos/Backends/OzzyKext/OzzyKext.cpp:110-115 | characters up to the terminator or maxLen − 1 of them are copied, then NUL; the rest of dest is untouched |
| OzzyKext.Roles | macos/Backends/OzzyKext/OzzyKext.cpp:340-344 | the pipe loop visits three roles: pcmOut, pcmIn, midiIn |
| OzzyKext.FirstOpened | macos/Backends/OzzyKext/OzzyKext.cpp:316-332 | a slot holds the first child that is its interface and opens, and none exactly when no such child exists |
| OzzyKext.FirstOpenedSnoc | macos/Backends/OzzyKext/OzzyKext.cpp:322-323 | a further child changes a slot only when the slot is still empty (the !mInterfaces[i] test) |
| OzzyKext.Claimed | macos/Backends/OzzyKext/OzzyKext.cpp:311-327 | foundCount never exceeds the number of slots |
| OzzyKext.ClaimedNone | macos/Backends/OzzyKext/OzzyKext.cpp:311 | with every slot empty foundCount starts at 0 |
| OzzyKext.ClaimOne | macos/Backends/OzzyKext/OzzyKext.cpp:325-327 | claiming an empty slot raises foundCount by one |
| OzzyKext.ClaimedUnchanged | macos/Backends/OzzyKext/OzzyKext.cpp:321 | the count looks at the first interfaceCount slots only |
| OzzyKext.ClaimedAll | macos/Backends/OzzyKext/OzzyKext.cpp:337 | foundCount equals interfaceCount exactly when every profile slot was claimed |
| OzzyKext.SlotFrom | macos/Backends/OzzyKext/OzzyKext.cpp:350-355 | the first profile slot naming the role's interface, or none when no slot does |
| OzzyKext.Opened | macos/Backends/OzzyKext/OzzyKext.cpp:346-369 | the pool pipes in role order, never one with address 0, at most one per role |
| OzzyKext.AllRolesInOrder | macos/Backends/OzzyKext/OzzyKext.cpp:339-369 | with all three roles in use and available the pool is pcmOut, pcmIn, midiIn |
| OzzyKext.Kext.constructor | macos/Backends/OzzyKext/OzzyKext.cpp:136-137 | start clears every interface and pipe slot |
| OzzyKext.Kext.ConfigureHardware | macos/Backends/OzzyKext/OzzyKext.cpp:300-373 | the call succeeds exactly when there is a work loop and every profile slot found its interface; the slots then hold those interfaces, and on success the pool holds the opened pipes from slot 0 in role order and nothing after them |
| OzzyKext.Kext.ClaimInterfaces | macos/Backends/OzzyKext/OzzyKext.cpp:311-335 | after the walk over the children each slot holds its first matching child that opens, and foundCount counts the claimed slots |
| OzzyKext.Kext.OfferChild | macos/Backends/OzzyKext/OzzyKext.cpp:321-331 | one child offered to every slot keeps slots equal to the first match among the children seen so far, and foundCount exact |
| OzzyKext.Kext.FillPipePool | macos/Backends/OzzyKext/OzzyKext.cpp:339-369 | the pipes fill the pool from slot 0 in role order while slots are left, and the rest stays empty |
| OzzyKext.Kext.FindSlot | macos/Backends/OzzyKext/OzzyKext.cpp:350-355 | the slot search returns the first profile slot naming the interface |
| OzzyKext.Seq | macos/Backends/OzzyKext/OzzyKext.cpp:361-362 | pool entry p is pipe p of the opened list |
| OzzyKext.Target | macos/Backends/OzzyKext/OzzyKext.cpp:350-356 | a pipe's interface is the claim of the first profile slot naming its interface index, and there is none when no slot names it |
| HalDriver.OutPacket | mac-hal/ploytechal/PloytecDriver.cpp:479-480 | the output packet is a whole number of ten-frame blocks of the mode's stride (512 bulk, 482 interrupt), at least one block, and empty exactly when fewer than ten frames are asked for |
| HalDriver.InPacket | mac-hal/ploytechal/PloytecDriver.cpp:481 | the input packet is 64 bytes per frame and empty exactly when no input frames are asked for |
| HalDriver.Segments | mac-hal/ploytechal/PloytecDriver.cpp:482-483 | the segment count is the largest number of whole packets that fit the buffer, and 0 for an empty packet |
| HalDriver.SegmentFits | mac-hal/ploytechal/PloytecDriver.cpp:405-424 | every segment below the count lies wholly inside the buffer the count was taken from |
| HalDriver.AcceptedHoldsTwoPackets | mac-hal/ploytechal/PloytecDriver.cpp:484-486 | an accepted format leaves room for two output packets, and for two input packets when input is used |
| HalDriver.StreamFormat | mac-hal/ploytechal/PloytecDriver.cpp:379 | the 80-frame format of StartStreaming is accepted in both modes, with 32 bulk or 33 interrupt output segments and 32 input segments of 5120 bytes |
| HalDriver.ShortOutputRefused | mac-hal/ploytechal/PloytecDriver.cpp:480-484 | fewer than ten output frames give no output segment, and the format is refused |
| HalDriver.StartStep | mac-hal/ploytechal/PloytecDriver.cpp:420-433 | one output submission of the start loop places the MIDI pair of its segment and leaves every other byte as it was |
| HalDriver.StartLeavesPcmSilent | mac-hal/ploytechal/PloytecDriver.cpp:381-387 | with the MIDI byte the transfer mode selects, the prefill and start loop write only the 0xFD pair positions, so every PCM byte of the output buffer stays 0 |
| HalDriver.InitialReads | mac-hal/ploytechal/PloytecDriver.cpp:405-409 | the start loop's reads are segments 0 to n − 1, each one packet long at segment × packet |
| HalDriver.Driver.constructor | mac-hal/ploytechal/PloytecDriver.cpp:19-43 | a new driver is in bulk mode with MIDI byte 0, no packet sizes, no segments and both segment counters at 0 |
| HalDriver.Driver.SetConnected | mac-hal/ploytechal/PloytecDriver.cpp:141 | the flag takes the new value, and the host is notified exactly when the value changed |
| HalDriver.Driver.DetectTransferMode | mac-hal/ploytechal/PloytecDriver.cpp:187-198 | succeeds exactly for a bulk or interrupt PCM-out pipe, choosing MIDI byte 480 or 432; otherwise mode and MIDI byte are untouched |
| HalDriver.Driver.ConfigureStreamingFormat | mac-hal/ploytechal/PloytecDriver.cpp:478-487 | stores both packet sizes and segment counts, and succeeds exactly when there are at least two output segments and, with input, at least two input segments |
| HalDriver.Driver.SubmitPCMin | mac-hal/ploytechal/PloytecDriver.cpp:405-410 | with the PCM-in interface a read of one input packet at segment × packet is queued and the result is true; without it nothing is queued and the result is false |
| HalDriver.Driver.SubmitPCMout | mac-hal/ploytechal/PloytecDriver.cpp:420-436 | with shared memory the segment's MIDI byte is the oldest queued midiOut byte, which is consumed, or 0xFD from an empty ring, and the byte after it is 0xFD; the segment is written out in every case |
| HalDriver.Driver.SubmitMIDIin | mac-hal/ploytechal/PloytecDriver.cpp:446-452 | a 512-byte read is counted exactly when the MIDI-in interface exists and the read is accepted |
| HalDriver.Driver.PCMoutComplete | mac-hal/ploytechal/PloytecDriver.cpp:438-444 | during shutdown or after a failed transfer nothing changes; otherwise the playback clock advances by 80 frames and segment txSeg mod txSegCount is submitted, with txSeg counting on modulo 2^32 |
| HalDriver.Driver.PCMinComplete | mac-hal/ploytechal/PloytecDriver.cpp:412-418 | during shutdown or after a failed transfer nothing changes; otherwise the capture clock advances by 80 frames and segment rxSeg mod rxSegCount is read, with rxSeg counting on modulo 2^32 |
| HalDriver.Driver.MIDIinComplete | mac-hal/ploytechal/PloytecDriver.cpp:454-476 | nothing during shutdown; a failed read is only resubmitted; otherwise with shared memory the received bytes other than 0xFD enter midiIn in order, each dropped when the ring is full, and the read is resubmitted; the reader's index is never touched |
| HalDriver.Driver.PushReceived | mac-hal/ploytechal/PloytecDriver.cpp:462-472 | the push loop offers every non-0xFD byte of the received data to midiIn in order and keeps only those that fit |
| HalDriver.Driver.StopStreaming | mac-hal/ploytechal/PloytecDriver.cpp:394-403 | shutdown is raised and the result is true |
| HalDriver.Driver.StartStreaming | mac-hal/ploytechal/PloytecDriver.cpp:375-392 | refused without a device and then nothing changes; otherwise the counters restart, the 80-frame format is set, both buffers are cleared, the 0xFD pairs are prefilled, one MIDI read is queued and urbCount rounds of one input and one output segment follow |
| HalDriver.Driver.PrepareStreaming | mac-hal/ploytechal/PloytecDriver.cpp:377-379 | shutdown is cleared, both segment counters restart at 0 and the accepted 80-frame format is in place |
| HalDriver.Driver.FillBuffers | mac-hal/ploytechal/PloytecDriver.cpp:381-387 | the input buffer is all 0 and the output buffer holds 0xFD at every MIDI pair position and 0 elsewhere |
| HalDriver.Driver.SubmitInitial | mac-hal/ploytechal/PloytecDriver.cpp:388 | the start loop queues reads of input segments 0 to urbCount − 1 (with the PCM-in interface) and writes of output segments 0 to urbCount − 1 |
| HalDriver.Driver.StartRound | mac-hal/ploytechal/PloytecDriver.cpp:388 | round i queues input segment i (with the PCM-in interface) and output segment i |
| HalDriver.Driver.ReadFirmwareVersion | mac-hal/ploytechal/PloytecDriver.cpp:489-496 | refused without a device; one 'V' request otherwise, and an answered one sets the firmware to the ID byte and version 1.(b2 / 10).(b2 mod 10); an unanswered one leaves it |
| HalDriver.Driver.ReadHardwareStatus | mac-hal/ploytechal/PloytecDriver.cpp:498-504 | refused without a device; one 'I' request otherwise, and an answered one stores the status byte |
| HalDriver.Driver.WriteHardwareStatus | mac-hal/ploytechal/PloytecDriver.cpp:506-510 | refused without a device; otherwise one 'I' write of the value, whose answer is the result |
| HalDriver.Driver.GetHardwareFrameRate | mac-hal/ploytechal/PloytecDriver.cpp:512-519 | refused without a device; the 4D (0A4A:FF4D) is set to 96000 without a request; any other device sends one GET_CUR and takes the little-endian rate of a complete three-byte answer, refusing a short one |
| HalDriver.Driver.SetHardwareFrameRate | mac-hal/ploytechal/PloytecDriver.cpp:521-533 | refused without a device; otherwise the low 24 bits of the rate go out little-endian in five SET_CUR requests to endpoints 0x86, 0x05, 0x86, 0x05, 0x86, and only the last answer decides the result |
| HalDriver.Driver.StartWithDevice | mac-hal/ploytechal/PloytecDriver.cpp:377-391 | with the device open, StartStreaming succeeds with the 80-frame format, both buffers prepared and prefilled, one MIDI read counted when the MIDI-in interface accepts it, and urbCount initial reads and writes queued |
| PloytecDevice.HandlerFor | mac-coreaudio/PloytecDriver/PloytecDevice.cpp:247-250 | INTERRUPT installs the interrupt handler, BULK the bulk handler, and any other mode none |
| PloytecDevice.PacketIndex | mac-coreaudio/PloytecDriver/PloytecDevice.cpp:378 | where (counter mod period) / framesPerPacket fits a uint16, currentpos is the packet whose frames contain the counter's ring position |
| PloytecDevice.PloytecDevice.constructor | mac-coreaudio/PloytecDriver/PloytecDevice.cpp:49-74 | after init both directions are stopped, xruns and all counters are 0, the zero-timestamp period is the one given and the handler is the mode's |
| PloytecDevice.PloytecDevice.WriteEnd | mac-coreaudio/PloytecDriver/PloytecDevice.cpp:163-185 | an out counter outside [t − (period − n), t] counts one xrun and restarts a quarter period behind t modulo 2^64, otherwise it stays; then frame i is encoded at ring slot (t + i) mod period of the installed handler's layout (32 bytes after each ten frames in bulk, 2 in interrupt) and no other output byte changes |
| PloytecDevice.PloytecDevice.BeginRead | mac-coreaudio/PloytecDriver/PloytecDevice.cpp:186-197 | an in counter outside [t, t + (period − n)] counts one xrun and restarts a quarter period ahead of t modulo 2^64, otherwise it stays; then frame i is decoded from 64-byte input slot (t + i) mod period into CoreAudio's input ring and nothing else there changes |
| PloytecDevice.PloytecDevice.Playback | mac-coreaudio/PloytecDriver/PloytecDevice.cpp:375-391 | while playing, currentpos is the packet the out counter points at, the zero timestamp rolls forward one period with the completion time when the position reached the period, and counter and position advance by 40 frames; otherwise the result is false and nothing changes |
| PloytecDevice.PloytecDevice.Capture | mac-coreaudio/PloytecDriver/PloytecDevice.cpp:393-402 | while recording, currentpos is (counter mod period) / 32 and the in counter advances by 32 frames; otherwise the result is false and nothing changes |
| PloytecDevice.PloytecDevice.StartIO | mac-coreaudio/PloytecDriver/PloytecDevice.cpp:286-292 | the zero timestamp and both hardware counters restart at 0 and both directions start |
| PloytecDevice.PloytecDevice.StopIO | mac-coreaudio/PloytecDriver/PloytecDevice.cpp:306-322 | both directions stop, whatever the base class answers |
| PloytecDevice.PloytecDevice.PlaybackStatsFor | mac-coreaudio/PloytecDriver/PloytecDevice.cpp:355-373 | the stats report both flags, the xruns, both client times and both hardware counters, and each difference added to its client time gives back the counter modulo 2^64 |
| PloytecAudioDevice.FillPad | mac-coreaudio/PloytecDriver/PloytecAudioDevice.cpp:449-458 | frame 0 is written unpadded, frames 1 to 8 two bytes further on and frame 9 four bytes further on |
| PloytecAudioDevice.FillOffsetsApart | mac-coreaudio/PloytecDriver/PloytecAudioDevice.cpp:449-458 | the ten encoded frames never overlap and lie in increasing order in the packet |
| PloytecAudioDevice.FillFits | mac-coreaudio/PloytecDriver/PloytecAudioDevice.cpp:449-458 | every encoded frame ends by byte 484, inside one interrupt packet |
| PloytecAudioDevice.FillCoversUartBytes | mac-coreaudio/PloytecDriver/PloytecAudioDevice.cpp:457-458 | frame 8 is written over the two UART bytes of the interrupt layout, and frame 9 does not sit where the interrupt layout expects it |
| PloytecAudioDevice.FillPacket | mac-coreaudio/PloytecDriver/PloytecAudioDevice.cpp:449-458 | the packet holds, at each frame's padded offset, the encoding of the CoreAudio frame at the client position plus (k * 24 mod buffer size), and every other byte is unchanged |
| PloytecAudioDevice.PloytecAudioDevice.constructor | mac-coreaudio/PloytecDriver/PloytecAudioDevice.cpp:58-80 | after init both directions are stopped and the sample counter is 0 |
| PloytecAudioDevice.PloytecAudioDevice.StartIO | mac-coreaudio/PloytecDriver/PloytecAudioDevice.cpp:314-322 | once the base class and both mappings succeed, both directions start and the sample counter and zero timestamp are 0 |
| PloytecAudioDevice.PloytecAudioDevice.StopIO | mac-coreaudio/PloytecDriver/PloytecAudioDevice.cpp:336-351 | both directions stop |
| PloytecAudioDevice.PloytecAudioDevice.FillPCMPacketBulk | mac-coreaudio/PloytecDriver/PloytecAudioDevice.cpp:388-430 | the bulk fill always reports success |
| PloytecAudioDevice.PloytecAudioDevice.FillPCMPacketInt | mac-coreaudio/PloytecDriver/PloytecAudioDevice.cpp:432-464 | while playing, a counter at the buffer size restarts at 0 and moves the zero timestamp one buffer on with the completion time, the ten frames are encoded into the packet and the counter advances by 40; when stopped nothing changes; success is reported either way |
| PloytecAudioDevice.FillFrame | mac-coreaudio/PloytecDriver/PloytecAudioDevice.cpp:449-458 | one encoder call of FillPCMPacketInt adds frame k at its packet offset to the frames already laid out |
| AudioDevice.SyncPattern | mac-coreaudio/XoneDB4Driver/AudioDevice.cpp:464-498 | the sync pattern is 32 bytes: 0xFD, 0xFF, then thirty zeros |
| AudioDevice.WriteSyncBytes | mac-coreaudio/XoneDB4Driver/AudioDevice.cpp:464-498 | the 32 bytes at the destination become the sync pattern and every other byte is unchanged |
| AudioDevice.InitSyncBytes | mac-coreaudio/XoneDB4Driver/AudioDevice.cpp:200-203 | the packet buffer holds the sync pattern at byte 480 of each of the eight sub-packets and every other byte is unchanged |
| AudioDevice.PacketFrameOffsetIsBulk | mac-coreaudio/XoneDB4Driver/AudioDevice.cpp:317-318 | packet frame i goes to byte 512 (i / 10) + 48 (i mod 10), which is the bulk ring layout |
| AudioDevice.PacketFrameFits | mac-coreaudio/XoneDB4Driver/AudioDevice.cpp:317-318 | each of the 80 frames ends inside the 4096-byte packet |
| AudioDevice.RingFramesDistinct | mac-coreaudio/XoneDB4Driver/AudioDevice.cpp:317-318 | fewer than 256 consecutive uint64 counter values, wrap-around included, pick distinct frames of the 640-frame CoreAudio ring |
| AudioDevice.PacketSyncBytesKept | mac-coreaudio/XoneDB4Driver/AudioDevice.cpp:317-321 | encoding the frames leaves the sync bytes 480 to 511 of every sub-packet as they were |
| AudioDevice.EncodePacket | mac-coreaudio/XoneDB4Driver/AudioDevice.cpp:317-321 | packet frame i holds the encoding of CoreAudio frame (usb + i) mod 640, nothing else in the packet changes, and both counters advance by 80 with wrap-around |
| AudioDevice.DecodePacket | mac-coreaudio/XoneDB4Driver/AudioDevice.cpp:356-359 | CoreAudio frame (usb + i) mod 640 holds the decoding of 64-byte packet frame i, nothing else changes, and the counter advances by 80 modulo 2^64 |
| AudioDevice.AudioDevice.constructor | mac-coreaudio/XoneDB4Driver/AudioDevice.cpp:83-214 | after init all three flags are clear, the counters are 0 and nothing has been submitted |
| AudioDevice.AudioDevice.SendPCMToDevice | mac-coreaudio/XoneDB4Driver/AudioDevice.cpp:296-335 | while playing: the zero timestamp rolls one buffer on with the completion time when a buffer's worth was sent, an out counter more than a buffer behind the client restarts half a buffer behind it, 80 frames are encoded with the sync bytes kept and the data packet is submitted; otherwise the empty packet is submitted and nothing else changes; the pipe's status is returned |
| AudioDevice.AudioDevice.ReceivePCMfromDevice | mac-coreaudio/XoneDB4Driver/AudioDevice.cpp:337-369 | while recording: an in counter more than a buffer ahead of the client restarts half a buffer ahead of it, the data packet is submitted and its 80 frames are decoded into the CoreAudio ring; otherwise the empty packet is submitted and nothing else changes; the pipe's status is returned |
| AudioDevice.AudioDevice.StartIO | mac-coreaudio/XoneDB4Driver/AudioDevice.cpp:241-247 | the zero timestamp and both USB counters restart at 0 and the clock, playback and capture start |
| AudioDevice.AudioDevice.StopIO | mac-coreaudio/XoneDB4Driver/AudioDevice.cpp:264-272 | the clock, playback and capture stop and both USB counters return to 0 |
| AudioDevice.EncodePacketFrame | mac-coreaudio/XoneDB4Driver/AudioDevice.cpp:317-321 | one iteration of the send loop adds CoreAudio frame (out counter mod 640), encoded, as packet frame i to the frames already laid out |
| AudioDevice.DecodePacketFrame | mac-coreaudio/XoneDB4Driver/AudioDevice.cpp:356-359 | one iteration of the receive loop adds packet frame i, decoded, as CoreAudio frame (in counter mod 640) to the frames already laid out |
| PcmStream.RingPosCases | linux/pcm.c:195-226 | frame k of a packet that fits before the ring end sits at dma_off + 24 k; in a wrapping packet the first (size − dma_off) / 24 frames sit at the ring tail and the rest at the head, counted from byte 0 |
| PcmStream.RingPosContinues | linux/pcm.c:228-231 | after dma_off moves one packet on and wraps once, the next packet's frame k is the ring slot that follows this packet's last frame |
| PcmStream.RingPosDistinct | linux/pcm.c:202-225 | no two frames of one packet land in the same ring slot when the packet is no larger than the ring |
| PcmStream.Substream.constructor | linux/pcm.c:39-47 | a new substream slot is detached, inactive and at offset 0 |
| PcmStream.Substream.ValidAligned | linux/pcm.c:228-231 | under the position invariant dma_off is a whole number of frames inside the ring |
| PcmStream.Substream.Advance | linux/pcm.c:228-239 | corrected (see Findings): the period step is PeriodStep with the period in bytes rather than in frames; dma_off moves one packet on and wraps once at the ring end; the handler reports a period exactly when the bytes moved since prepare crossed a period boundary, and the invariant (both offsets are those bytes reduced by ring and period, one report per completed period) is kept |
| PcmStream.PeriodStepTracksBytes | linux/pcm.c:233-237 | whatever the period, one step keeps period_off equal to the bytes moved reduced by the period, and reports exactly when those bytes passed a multiple of the period |
| PcmStream.PeriodRunOffset | linux/pcm.c:233-237 | as written, after m packets period_off is the bytes moved, m·packet, reduced by the period, whatever unit the period is in |
| PcmStream.PeriodRunStep | linux/pcm.c:233-239 | as written, packet m adds one report exactly when m·packet passed a multiple of the period that (m − 1)·packet had not, and none otherwise |
| PcmStream.PeriodRunReports | linux/pcm.c:233-239 | as written, with a period no shorter than a packet the reports after m packets number m·packet div period; with a shorter one every packet reports once, so m reports |
| PcmStream.ReportsCountPeriods | linux/pcm.c:233-239 | with a period no shorter than a packet, m packets report m·packet div period times |
| PcmStream.ReportsEveryPacket | linux/pcm.c:233-239 | with a period no longer than a packet, each of m packets reports once, however many periods it spans |
| PcmStream.FirstReport | linux/pcm.c:233-239 | with a period no shorter than a packet, no period is reported until the bytes moved (m·packet) reach the period, and one is once they do |
| PcmStream.PeriodInFramesReportsEarly | linux/pcm.c:233-239 | as written, period_off counts bytes but is compared with period_size in frames: with 1024-frame periods the first report comes at the second 960-byte packet, where a 24576-byte period first completes at packet 26, and every 128 packets (five whole periods) report 120 times instead of 5 |
| PcmStream.ShortestPeriodReportsEveryPacket | linux/pcm.c:233-239 | as written, at the shortest period the hardware table admits (1920 bytes, 80 frames) every 960-byte packet reports; measured in bytes, every second one does |
| PcmStream.ReportsCompletedPeriods | linux/pcm.c:233-239 | corrected (see Findings): with the period measured in bytes and packets no larger than a period, m packets report exactly the m·packet div period periods they complete, and packet m reports exactly when it completes one |
| AlsaPcm.PeriodInFramesReportsEarly | linux-alsa/pcm.c:270-274 | as written (here and in the playback copy at 298-302), period_off in bytes is compared with period_size in frames: with 1024-frame periods the first report comes at the fifth 240-byte playback packet and the sixth 192-byte capture packet, where a 24576-byte period first completes at packets 103 and 128; at the 200-frame minimum every playback packet reports, twenty times as often as periods complete |
| PcmStream.Runtime.constructor | linux/pcm.c:936-981 | a new runtime is disabled, not panicked, with two distinct substream slots |
| PcmStream.Runtime.Sub | linux/pcm.c:100-112 | playback and capture substreams map to their slots; any other direction has none |
| PcmStream.Runtime.StreamStop | linux/pcm.c:114-120 | every state ends DISABLED |
| PcmStream.Runtime.StreamStart | linux/pcm.c:159-170 | only a DISABLED stream starts: it ends RUNNING with panic cleared; other states are untouched; the result is 0 |
| PcmStream.Runtime.SetRate | linux-alsa/pcm.c:174-190 | the chip's ALSA rate becomes the runtime's rate, and the device is reset exactly when that differs from the rate it runs at |
| PcmStream.Runtime.FindRate | linux/pcm.c:660-663 | the result is the index of the rate in the table of four, and 4 exactly when the rate is not in it |
| PcmStream.Runtime.Prepare | linux/pcm.c:639-687 | -EPIPE after a panic, -ENODEV without a slot, -EINVAL for a format other than S24_3LE; otherwise the position restarts at 0, and a disabled stream returns -EINVAL exactly for an unsupported rate and otherwise records the rate, applies it and runs |
| PcmStream.Runtime.Trigger | linux/pcm.c:689-717 | -EPIPE after a panic, -ENODEV without a slot; START and PAUSE_RELEASE set active, STOP and PAUSE_PUSH clear it, anything else is -EINVAL and changes nothing; the position is never touched |
| PcmStream.Runtime.Pointer | linux/pcm.c:719-736 | an xrun exactly after a panic or without a slot; otherwise dma_off in whole frames, inside the ring |
| PcmStream.Runtime.Open | linux/pcm.c:579-610 | -EPIPE after a panic; otherwise the rate index is cleared, an unknown direction is -EINVAL, and the slot is attached inactive |
| PcmStream.Runtime.Close | linux/pcm.c:612-637 | nothing after a panic; otherwise the slot is detached and inactive, and once both slots are detached the stream is DISABLED and the rate cleared |
| PcmStream.Runtime.Abort | linux/pcm.c:738-748 | the runtime panics and the stream is DISABLED |
| LinuxPcm.GroupOffset | linux/pcm.c:256-267 | each frame loop of a playback packet adds the padding of its group, which is the URB offset k·48 + 32·(k div 10) in bulk mode and k·48 + 2·((k+1) div 10) in interrupt mode |
| LinuxPcm.FramesFit | linux/pcm.c:19-22 | all 40 playback frames lie inside the 2048-byte bulk and 1928-byte interrupt packets |
| LinuxPcm.FramesApart | linux/pcm.c:346-360 | an earlier playback frame ends before a later one starts, so no two frames overlap in the URB |
| LinuxPcm.BulkFrameInBlock | linux/pcm.c:256-267 | in bulk mode frame k is frame k mod 10 of 512-byte block k div 10, within the block's first 480 bytes, clear of the UART byte, the 0xFF and the padding |
| LinuxPcm.InterruptClearOfMidi | linux/pcm.c:346-360 | no interrupt-mode frame touches one of the MIDI pairs at 432 + 482 j |
| LinuxPcm.PlaybackOps | linux/pcm.c:244-317 | whether the packet fits before the ring end or wraps, the 40 converter calls read playback frame k from ring position k of the packet and write it to URB offset k·48 + 32·(k div 10) (bulk) or k·48 + 2·((k+1) div 10) (interrupt) |
| LinuxPcm.CaptureOps | linux/pcm.c:188-227 | whether the packet fits or wraps, the 32 converter calls take frame k from URB offset 64 k and write it to ring position k of the packet |
| LinuxPcm.Playback | linux/pcm.c:334-432 | corrected (see Findings) in its period report, which Substream.Advance makes in bytes: one playback packet: the converter calls above, then the position moves 960 bytes on, with the result saying whether a period elapsed |
| LinuxPcm.Capture | linux/pcm.c:188-240 | corrected (see Findings) in its period report, which Substream.Advance makes in bytes: one capture packet: the converter calls above, then the position moves 768 bytes on, with the result saying whether a period elapsed |
| LinuxPcm.BulkTemplateAt | linux/pcm.c:768-783 | byte r of block b of a fresh bulk URB is silence below 480, the block's MIDI byte at 480, 0xFF at 481 and zero after |
| LinuxPcm.IntTemplateAt | linux/pcm.c:806-814 | the j-th MIDI pair of a fresh interrupt URB carries the MIDI output's bytes and is followed by zeros |
| LinuxPcm.Fill | linux/pcm.c:768 | memset: the range takes the value and every other byte is unchanged |
| LinuxPcm.InitBulkOut | linux/pcm.c:758-794 | every byte of a fresh bulk URB follows the block template: 480 zeros, the MIDI byte, 0xFF, 30 zeros per 512-byte block |
| LinuxPcm.InitIntOut | linux/pcm.c:796-825 | every byte of a fresh interrupt URB is zero except the four MIDI pairs at 432 + 482 j |
| LinuxPcm.BulkTemplateSilent | linux/pcm.c:768-783 | every byte of every playback frame of a fresh bulk URB is silence |
| LinuxPcm.IntTemplateSilent | linux/pcm.c:806-814 | every byte of every playback frame of a fresh interrupt URB is silence |
| LinuxPcm.InactiveSilencesFrames | linux/pcm.c:498-555 | the ranges an output handler zeroes while its substream is inactive cover every byte a playback frame occupies, in both modes |
| AlsaPcm.ConvertCaptureAsWritten | linux-alsa/pcm.c:192-214 | as written: without src2 eight frames from src1; with src2, len / 24 frames from src1, then frames at the same index from src2 into dest up to (n − len) / 24 |
| AlsaPcm.ConvertPlaybackAsWritten | linux-alsa/pcm.c:216-239 | as written: without src2 ten frames at strides 48 and 24; with src2 the same two loops as capture; the sync bytes at dest + 480 come last |
| AlsaPcm.CaptureWrapOverrun | linux-alsa/pcm.c:207-212 | for a 9648-byte ring at dma_off 9600 the as-written wrap converts six of eight frames and writes one of them at byte 9648, past the ring end, from inside the ring |
| AlsaPcm.PlaybackWrapMisreads | linux-alsa/pcm.c:231-236 | for the same ring the as-written playback wrap converts eight of ten frames and reads the first head frame from ring byte 48 instead of 0 |
| AlsaPcm.ConvertCapture | linux-alsa/pcm.c:192-214 | corrected: with a wrap, the first len / 24 frames go to dest1 and the rest, up to n / 24, to the ring head from its start |
| AlsaPcm.ConvertPlayback | linux-alsa/pcm.c:216-239 | corrected: with a wrap, the first len / 24 frames come from src1 and the rest, up to n / 24, from the ring head from its start; then the sync bytes at dest + 480 |
| AlsaPcm.CaptureOps | linux-alsa/pcm.c:243-264 | corrected: the wrap case calls the corrected ConvertCapture (see Findings); each of the eight capture frames goes from URB offset 64 k to ring position k of the packet |
| AlsaPcm.PlaybackOps | linux-alsa/pcm.c:281-304 | corrected: the wrap case calls the corrected ConvertPlayback (see Findings); each of the ten playback frames goes from ring position k to URB offset 48 k, followed by the sync bytes at 480, after the last frame |
| AlsaPcm.Capture | linux-alsa/pcm.c:243-277 | corrected (see Findings) in its converter calls and in its period report, which Substream.Advance makes in bytes: one capture packet: the calls above, then the position moves 192 bytes on and reports whether a period elapsed |
| AlsaPcm.Playback | linux-alsa/pcm.c:281-317 | corrected (see Findings) in its converter calls and in its period report, which Substream.Advance makes in bytes: one playback packet: the calls above, then the position moves 240 bytes on and reports whether a period elapsed |
| LinuxPcm.BulkTemplate | linux/pcm.c:768-783 | in a fresh bulk URB only bytes 480 and 481 of each 512-byte block can be non-zero, and byte 480 is that block's MIDI byte |
| LinuxPcm.IntTemplate | linux/pcm.c:806-814 | in a fresh interrupt URB a non-zero byte lies in one of the four MIDI pairs at 432 + 482 j and is the matching byte of the MIDI output |
| AlsaChip.SetRates | linux-alsa/chip.c:130-151 | the n-th prefix of the rate write is n SET_CUR transfers carrying the rate bytes, to the clock (0x86) and the endpoint (0x05) alternately |
| AlsaChip.RateBytes | linux-alsa/chip.c:102-127 | an index has bytes exactly when it is one of the four, and those bytes are the rate's 24-bit little-endian encoding (44 AC 00, 80 BB 00, 88 58 01, 00 77 01) |
| AlsaChip.RateIndex | linux-alsa/chip.c:183-193 | bytes map to an index only if they are that rate's encoding, and to none only if they match no rate |
| AlsaChip.RateRoundTrip | linux-alsa/chip.c:102-193 | reading back the bytes written for a rate index yields the same index |
| AlsaChip.RateIndexInverse | linux-alsa/chip.c:102-193 | bytes that decode to an index are exactly the bytes written for it |
| AlsaChip.FirstFailure | linux-alsa/chip.c:130-151 | the position of the first failing transfer: every earlier one succeeded and this one failed, or all succeeded |
| AlsaChip.Chip.constructor | linux-alsa/chip.c:303-319 | the zeroed private data of a new card: no transfers sent, rate indices 0 |
| AlsaChip.Chip.SetSamplerate | linux-alsa/chip.c:96-156 | an index outside the table returns -1 before any transfer; otherwise the bytes are stored, the transfers are sent up to and including the first failure, whose error is returned, and devicerate follows alsarate only when all five succeeded |
| AlsaChip.Chip.GetSamplerate | linux-alsa/chip.c:170-196 | a failed read returns its error and changes nothing; otherwise the reply replaces the stored bytes and devicerate becomes its index, or -1 is returned with devicerate unchanged for unknown bytes |
| AlsaChip.Chip.GetStatus | linux-alsa/chip.c:158-168 | one vendor read; the status byte is replaced only when it succeeded |
| AlsaChip.Chip.SendAllGood | linux-alsa/chip.c:58-65 | one vendor write of value 0xFFB2; its result is returned |
| AlsaChip.Chip.BringUp | linux-alsa/chip.c:245-273 | status, rate read, rate write, rate read, status and all-good, stopping at the first failure; it succeeds exactly when every step does, and then sent ten transfers, left a supported ALSA rate, and a device echoing the bytes runs at that rate |
| AlsaChip.Globals.constructor | linux-alsa/chip.c:35-45 | at module load no reset is pending and no card is known |
| AlsaChip.Globals.Reset | linux-alsa/chip.c:79-94 | the reset flag is raised and one device reset issued; a failed reset returns its error |
| AlsaChip.Globals.FirstEnabled | linux-alsa/chip.c:290-299 | the first enabled card slot, or the slot count when none is enabled |
| AlsaChip.Globals.ProbeAfterReset | linux-alsa/chip.c:241-285 | the reset branch clears the flag and succeeds with 0 exactly when the bring-up at the card's own rate and the URB set-up both succeed, keeping the card; the URB set-up's error is returned when only it fails; any failure releases the card (snd_card_free), leaving none |
| AlsaChip.Globals.ProbeFresh | linux-alsa/chip.c:287-382 | no enabled slot gives -ENODEV and changes nothing; a failed snd_card_new returns its error and changes nothing; otherwise the card number is recorded and the rate defaults to index 3; a failed firmware query returns its error and keeps the card (it is not freed); after it, the probe succeeds with 0 exactly when the bring-up at 96 kHz, PCM set-up and registration all succeed, keeping the card with its firmware bytes and a supported device rate, and any of those failing releases the card |
| AlsaChip.Globals.Probe | linux-alsa/chip.c:199-382 | interface 1 returns 0 and touches nothing; a failed alternate-setting switch returns -EIO and touches nothing; then the reset branch and the fresh branch, with the outcomes stated for ProbeAfterReset and ProbeFresh: 0 exactly when every step succeeds, -ENODEV, snd_card_new's error, the card kept after a failed firmware query and released after any later failure |
| AlsaChip.SetRate | linux-alsa/chip.c:130-146 | each SET_CUR transfer carries the rate bytes to the control GET_CUR reads, host-to-device, on the clock (0x86) for even k and the endpoint (0x05) for odd k |

## Left out

- Operating-system and USB calls: `AsyncIO`, `DeviceRequest`, `usb_control_msg`, `usb_submit_urb`, pipe aborts, memory descriptors and maps, `shm_open`/`mmap`, device matching and the system-extension manager. Each becomes a parameter (its status, its answer) or an entry in a log of submitted requests, so the model says which requests are issued and in what order, and nothing about the transfers themselves.
- Concurrency: atomics and memory orders, dispatch queues, real-time thread policy, locks, and callbacks racing on the shared memory. Each operation is one sequential step on the shared state. Only the writer side of the sequence-counter timestamp is modelled, and the reader's retry loop is not.
- Floating point: the HAL plug-in's float-to-int32 conversion is modelled on real numbers: a float in [−1, 1] is scaled by 2^23 and truncated toward zero, which a float multiplication by a power of two does exactly. Rounding of other float arithmetic, NaN and infinities are not modelled. The clamp as written yields −0x800000..0x800000, and 0x800000 (from exactly 1.0) does not fit 24 bits; see Findings.
- The converters that linux/pcm.c and linux-alsa/pcm.c include from a shared header are not part of this model. Each converter call is recorded as an operation naming its source and destination, and the byte codec is the one modelled in `codec.dfy`.
- The driver-side consumer of the packed MIDI word is not part of this model. Unpacking exists only as the model's inverse, which the round-trip lemmas use.
- URB plumbing of the Linux drivers: URB allocation and layout beyond the output template, kill/poison, disconnect, the MIDI URBs, and the completion handlers' resubmission. The linux/ copy of the device reset is not part of this model.
- linux-alsa/pcm.c:344 and 386-389: the URB completion handlers memset with an index `i` that is never initialised, which is undefined behaviour, so those two handlers are not modelled; the packet steps they call are.
- linux-alsa/chip.c:377-381: every failure after line 301, and every failure of the reset path, leaves through `err`, which unlocks `register_mutex` although that lock is no longer (or never was) held. Locks are not modelled, so the stray unlock is not either; the card each failure frees or keeps is.
- linux/pcm.c:653-655: prepare returns -EINVAL for a wrong format while still holding the stream mutex. Locks are not modelled, so the missing unlock is not either.
- linux/pcm.c:597-598 and linux-alsa/pcm.c:430-431: open sets `rt->rate` to the table size and then reads `rates_alsaid` at that index, one past the end of the array. The model keeps the cleared rate index and leaves out the value read.
- mac-coreaudio/PloytecDriver/PloytecAudioDevice.cpp:466-470: `ReadPCMPacketBulk` and `ReadPCMPacketInt` have empty bodies while declared to return `bool`, so they have no behaviour to model.
- mac-coreaudio/PloytecDriver/PloytecDriver.cpp:457-481: `GetHWStatus` and `SendHWAllgood` fall off their end on success without returning a value, which is undefined behaviour, so they are not modelled; `GetHWFirmwareVer` is left out with them, because the driver only logs its answer.
- PloytecAudioDevice.PloytecAudioDevice.FillPCMPacketInt: requires that the ten source frames lie inside the CoreAudio buffer. As written, the source offset is the client sample position times 24 plus (k · 24 mod buffer size), with no wrap, and can run past the 2560-byte buffer; the model does not say what such a read returns.
- PloytecDriver.DecodeStringDescriptor: requires that bString holds the code units bLength announces, which is what the device guarantees. The source copies from the descriptor buffer without checking this.
- LinuxPcm.Playback, LinuxPcm.Capture, AlsaPcm.Playback and AlsaPcm.Capture: require a period of at least the minimum ALSA allows for these devices, so a period holds at least one packet.
- LinuxPcm.Playback: models the corrected period report of Substream.Advance, which measures the period in bytes; as written the step compares bytes with frames (PcmStream.PeriodInFramesReportsEarly and Findings).
- LinuxPcm.Capture: models the corrected period report of Substream.Advance in the same way; the as-written report is the one PcmStream.PeriodRunReports describes with the period in frames.
- AlsaPcm.Playback: models the corrected period report of Substream.Advance and the corrected ConvertPlayback; the as-written report is in AlsaPcm.PeriodInFramesReportsEarly and the as-written converter in AlsaPcm.ConvertPlaybackAsWritten (Findings).
- AlsaPcm.Capture: models the corrected period report of Substream.Advance and the corrected ConvertCapture; the as-written report is in AlsaPcm.PeriodInFramesReportsEarly and the as-written converter in AlsaPcm.ConvertCaptureAsWritten (Findings).
- AlsaPcm.PlaybackOps: calls the corrected ConvertPlayback in the wrap case; the as-written wrap misreads the ring head (AlsaPcm.PlaybackWrapMisreads, Findings).
- AlsaPcm.CaptureOps: calls the corrected ConvertCapture in the wrap case; the as-written wrap writes past the ring end (AlsaPcm.CaptureWrapOverrun, Findings).
- HalAudioDevice.DecodeFrame: yields the sign-extended int32 sample s, where DecodePloytecPCM stores the float s / 8388608 (mac-hal/ploytechal/PloytecAudioDevice.cpp:382). HalAudioDevice.StoredFloat gives that float, and HalAudioDevice.StoredFloatClampsBack shows that it determines s.
- HalAudioDevice.StoreSamples: stores the int32 sample, not the float s / 8388608 the source stores (see HalAudioDevice.DecodeFrame).
- HalAudioDevice.ReadFrame: writes int32 samples, not their floats (see HalAudioDevice.DecodeFrame).
- HalAudioDevice.ReadRun: writes int32 samples, not their floats (see HalAudioDevice.DecodeFrame).
- HalAudioDevice.ReadCycle: writes int32 samples, not their floats (see HalAudioDevice.DecodeFrame).
- HalAudioDevice.CycleInputAt: speaks of the int32 samples, not their floats (see HalAudioDevice.DecodeFrame).
- HalAudioDevice.PloytecAudioDevice.ReadInput: CoreAudio's input buffer holds the int32 samples, not their floats (see HalAudioDevice.DecodeFrame).
- HalAudioDevice.EncodeFrame: models the byte layout that mac-hal/ploytechal/PloytecAudioDevice.cpp:285-334 writes. The bit loop at lines 270-273 shifts by negative amounts, which is undefined behaviour, and every byte it writes is overwritten by lines 285-292, so it is not modelled.
- MidiBridge.MidiManager.ReadCallback: walks the packet list as a well-formed sequence of packets. The source copies the first packet into a local and steps with `MIDIPacketNext(&packet)` on that copy (mac-coreaudio/PloytecApp/PloytecAppMIDIManager.swift:34 and 52), so pointer arithmetic past the copy is not modelled.
- Diagnostics: logging, the last-input timestamps kept only for logs, and the statistics timer of the app's view are not modelled.
- SwiftUI views and app entry points, and the thin wrappers named alongside them: the driver entry points that only forward to the device, the user client of the Xone:DB4 driver, and the kext bus plumbing. None of them holds logic of its own.

## Findings

| source | as written | input that shows it | evidently intended | confidence | as-written member | corrected member |
|---|---|---|---|---|---|---|
| mac-hal/ploytecusb/PloytecUSB.cpp:424-425 | an interrupt-mode output packet starts at slot × 4096, while the prefill lays out 482-byte blocks from byte 0 | slot 1: its UART byte at 4096 + 432 = 4528 was prefilled 0, not 0xFD | packets at slot × packet size, so that every packet's UART bytes are the prefilled 0xFD (the Ozzy copy of the engine) | not executed | PloytecUsb.InterruptSlotMissesIdle | OzzyUsb.PacketBlocksPrefilled |
| mac-hal/Ozzy/PloytecUSB.cpp:326-335 | MIDI-in commits a byte by moving writeIndex past the slot without comparing it with readIndex | a ring holding 1023 bytes receives one more byte other than 0xFD | the full check of the ploytecusb copy: on a full ring the new byte is dropped and the queue is kept | not executed | MidiRing.OverrunVersusAdmit | MidiRing.Ring.CommitChecked |
| linux-alsa/pcm.c:207-212 | in the wrap case of `convert_capture` the second loop keeps the first loop's index and stops at (n − len) / 24 | a 9648-byte ring with dma_off 9600 (len 48): six of the eight frames are converted and the third is written at ring byte 9648, past the end | the remaining frames go to the ring head from byte 0 | not executed | AlsaPcm.CaptureWrapOverrun | AlsaPcm.ConvertCapture |
| linux-alsa/pcm.c:231-236 | the wrap case of `convert_playback` has the same two loops | the same ring at dma_off 9600: eight of the ten frames are converted and the first frame from the ring head is read from byte 48 | the remaining frames come from the ring head from byte 0 | not executed | AlsaPcm.PlaybackWrapMisreads | AlsaPcm.ConvertPlayback |
| linux/pcm.c:233-239 | `period_off` counts bytes but is compared with `period_size`, which ALSA counts in frames | 1024-frame periods: the second 960-byte packet reports a period, and 128 packets (five whole periods) report 120 times | a period is reported when a period's worth of bytes has been transferred | not executed | PcmStream.PeriodInFramesReportsEarly | PcmStream.Substream.Advance |
| linux-alsa/pcm.c:270-274 | the capture and playback steps (here and at 298-302) compare `period_off`, in bytes, with `period_size`, in frames | 1024-frame periods: playback reports at its fifth 240-byte packet (1200 bytes), where a 24576-byte period first completes at packet 103 | a period is reported when a period's worth of bytes has been transferred | not executed | AlsaPcm.PeriodInFramesReportsEarly | PcmStream.Substream.Advance |
| mac-coreaudio/PloytecDriver/PloytecDriver.cpp:489-490 | `len = (bLength - 2) / 2` is stored in a uint32 | bLength 0: len is 2^32 − 1, the `len + 1` allocation wraps to size 0 and the copy loop writes past it | an empty descriptor gives an empty name | not executed | PloytecDriver.EmptyDescriptorOverflows | PloytecDriver.NameLength |
| mac-hal/ploytechal/PloytecAudioDevice.cpp:261-262 | the clamp tests `src[i] > 1.0f`, so a sample of exactly 1.0 keeps its scaled value 8388608 = 0x800000 | a sample of 1.0f: 0x800000 is encoded as the 24-bit pattern 0x800000 and decodes to −0x800000 | saturate at 0x7FFFFF, as the clamp does for every sample above 1.0 | not executed | HalAudioDevice.FullScaleWraps | HalAudioDevice.Clamp |
