# Samsung Book SCAI command layer — Dafny model

This project models the SCAI firmware command layer of the Samsung Book ACPI driver in both of the
repository's driver snapshots, `samsung_acpi.c` and `samsung-book-laptop.c`, plus the key-debounce and
brightness-cycle logic of the user-space helper `support/samsung-book-support.c`.

- **Buffer codec** (`ScaiLayout`). `struct scai_buffer` is one 145-byte sequence:
  - header: `safn` at bytes 0-1, `sasb` at bytes 2-3, `rflg` at byte 4, with u16s little-endian;
  - a 140-byte union read as the generic view `gunm`, `guds[139]`, or as the extended view
    `caid[128]`, `fncn`, `subn`, `iob0..iob9`.

  Each view is an encode/decode pair, proved to round-trip in both directions. A contract states which
  bytes the two views share. `GenericRequest` is a zeroed buffer with `safn`, `sasb`, `gunm` and
  `guds[0]` then assigned; its first 0x15 bytes, the part that goes to CSFI, are given byte by byte.
- **Firmware** (`AcpiFirmware`). An oracle class: each evaluation is logged in `calls`. The answer is
  `EvalError`, `NonBuffer` or `Buffer(bytes)`, chosen by an arbitrary function of the whole call history.
- **Channel** (`ScaiChannel`). This module holds the code both snapshots share:
  - the buffer as an object whose fields are assigned in place;
  - `scai_command`, with its in-place `memcpy` loop;
  - `scai_csfi_command`;
  - `scai_kb_backlight_set`.

  `samsung_acpi.c:57-151` and `samsung-book-laptop.c:56-145` are the same code for these, apart from logging
  and the `&buf` at samsung-book-laptop.c:77 (see Left out).
- **Drivers** (`SamsungAcpi`, `SamsungBookLaptop`). The handshake, backlight get and set, the LED
  callbacks and attach, for each snapshot.
- **Helper** (`SamsungBookSupport`). The event handler is a class holding `pv` and `brightness_max`.
  It is specified by a pure step function. Further lemmas show two things:
  - the debounce reference is always the last hotkey event;
  - repeated presses cycle through every level and return to the start after `max + 1` presses.

The firmware, LED registration, memory allocation and the D-Bus brightness service are inputs to the
model:
- the firmware is the oracle's `respond` function;
- `allocOk` and `registerErr` stand for allocation and registration;
- `current` and `reply` stand for the brightness service's answers.

The handshake's acknowledgement test in samsung_acpi.c refuses a reply only when neither field
acknowledges, where both fields were evidently meant to be required. The model states the test as
written and also gives the corrected test (see Findings).

## Model

| member | source | states |
|---|---|---|
| ScaiLayout.U16Bytes | samsung_acpi.c:15-16 | a u16 field is two bytes, low byte first, that read back as the value |
| ScaiLayout.WithU16 | samsung_acpi.c:126-127 | assigning a u16 field changes exactly its two bytes, which then read back as the value |
| ScaiLayout.EncodeHeader | samsung_acpi.c:14-17 | the 5-byte header encoding decodes back to the same safn, sasb and rflg |
| ScaiLayout.EncodeGeneric | samsung_acpi.c:14-22 | a header plus generic view (gunm, 139 guds) encodes to 145 bytes that decode back to both |
| ScaiLayout.EncodeExtended | samsung_acpi.c:23-37 | a header plus extended view (128 caid, fncn, subn, 10 iob) encodes to 145 bytes that decode back to both |
| ScaiLayout.DecodeExtended | samsung_acpi.c:18-38 | the two union views alias: caid is gunm and guds[0..126], fncn is guds[127], subn is guds[128], iob0..9 are guds[129..138] |
| ScaiLayout.GenericRoundTrip | samsung_acpi.c:14-39 | every 145-byte buffer is the generic encoding of its own decoding |
| ScaiLayout.ExtendedRoundTrip | samsung_acpi.c:14-39 | every 145-byte buffer is the extended encoding of its own decoding |
| ScaiLayout.GenericRequest | samsung_acpi.c:124-129 | a zeroed buffer with safn 0x5843, sasb, gunm and guds[0] assigned decodes to exactly those with every other field zero; its 21 wire bytes are 43 58 sasb-lo sasb-hi 00 gunm guds0 and fourteen zeros |
| AcpiFirmware.Firmware.Evaluate | samsung_acpi.c:71-72 | one evaluation is appended to the call log with its method name and request bytes, and answered by the oracle |
| ScaiChannel.ScaiBuffer.Zeroed | samsung_acpi.c:124 | `= {0}`: a fresh 145-byte buffer of zeros |
| ScaiChannel.ScaiBuffer.SetSafn | samsung_acpi.c:126 | in place, the buffer becomes the old one with safn assigned |
| ScaiChannel.ScaiBuffer.SetSasb | samsung_acpi.c:127 | in place, the buffer becomes the old one with sasb assigned |
| ScaiChannel.ScaiBuffer.SetGunm | samsung_acpi.c:128 | in place, only byte 5 (gunm) changes |
| ScaiChannel.ScaiBuffer.SetGuds | samsung_acpi.c:129 | in place, only byte 6 + i (guds[i]) changes |
| ScaiChannel.AfterReply | samsung_acpi.c:82-90 | after a command of length len, the result buffer's first len bytes are the reply and the rest is untouched when the reply is a len-byte buffer; otherwise the buffer is unchanged |
| ScaiChannel.CsfiAcceptedReadsRflg | samsung_acpi.c:113 | when the reply has the right shape, the rflg byte in the updated buffer is 0xaa exactly when the round trip counts as accepted |
| ScaiChannel.Command | samsung_acpi.c:57-93 | sends the first len bytes of buf once; returns 0 iff evaluation succeeded, the reply is a buffer and its length is len, else -1; on success the reply overwrites the first len bytes of ret and nothing beyond |
| ScaiChannel.CsfiCommand | samsung_acpi.c:95-119 | always method "CSFI" with length 0x15 and buf as request and result; 0 iff the transport succeeded and rflg is 0xaa, else -1 (also when the transport succeeded) |
| ScaiChannel.KbBacklightSet | samsung_acpi.c:141-151 | one CSFI call with sasb 0x78, gunm 0x82, guds[0] = value and all else zero; returns the CSFI result |
| SamsungAcpi.EnableStatusAsWritten | samsung_acpi.c:131-138 | the literal test: 0 iff CSFI accepted and gunm is 0xdd or guds[0] is 0xcc; -1 iff CSFI failed; -ENODEV only when both fields mismatch |
| SamsungAcpi.EnableStatus | samsung_acpi.c:131-138 | corrected test: 0 iff CSFI accepted and both gunm 0xdd and guds[0] 0xcc; -ENODEV iff accepted without both; -1 iff CSFI failed |
| SamsungAcpi.AckCheckAcceptsOneField | samsung_acpi.c:135-136 | a reply acknowledging in gunm only passes the literal test and fails the corrected one |
| SamsungAcpi.NewEnableBuffer | samsung_acpi.c:124-129 | the handshake buffer: zeroed, safn 0x5843, sasb, gunm 0xbb, guds[0] 0xaa |
| SamsungAcpi.EnableCommandAsWritten | samsung_acpi.c:121-139 | sends the 0xbb/0xaa handshake request once through CSFI and returns the literal acknowledgement result |
| SamsungAcpi.EnableCommand | samsung_acpi.c:121-139 | the same request, with the corrected acknowledgement result |
| SamsungAcpi.KbBacklightGet | samsung_acpi.c:153-167 | one CSFI call with sasb 0x78, gunm 0x81; err is the CSFI result; value is always written: the reply's gunm byte when the reply reached the buffer, 0x81 otherwise |
| SamsungAcpi.EnableCommandsAsWritten | samsung_acpi.c:169-178 | exactly the backlight (sasb 0x78) handshake, its literal acknowledgement result returned |
| SamsungAcpi.EnableCommands | samsung_acpi.c:169-178 | corrected: exactly the backlight (sasb 0x78) handshake, the corrected acknowledgement result returned |
| SamsungAcpi.KbLedSet | samsung_acpi.c:180-186 | the backlight set with the LED level truncated to a byte |
| SamsungAcpi.KbLedGet | samsung_acpi.c:188-202 | the reply's gunm byte when CSFI was accepted, 0 on any error |
| SamsungAcpi.AddAsWritten | samsung_acpi.c:204-229 | allocation failure gives -ENOMEM with no firmware call; otherwise the handshake (literal acknowledgement test) runs first, and a handshake error aborts with no LED registered; on success the LED is registered with max_brightness 3 and both callbacks; registered iff 0 is returned |
| SamsungAcpi.Add | samsung_acpi.c:204-229 | corrected: allocation failure gives -ENOMEM with no firmware call; otherwise the handshake with the corrected acknowledgement test runs first, and a handshake error aborts with no LED registered; on success the LED is registered with max_brightness 3 and both callbacks; registered iff 0 is returned |
| SamsungBookLaptop.EnableCommand | samsung-book-laptop.c:123-133 | the 0xbb/0xaa handshake through CSFI, returning the CSFI result with no acknowledgement test |
| SamsungBookLaptop.SetRequest | samsung-book-laptop.c:176-177 | the second request of the LED set is the handshake request with only gunm := 0x82 and guds[0] := level changed |
| SamsungBookLaptop.KbLedSet | samsung-book-laptop.c:147-193 | first evaluates the handshake bytes; if that evaluation fails, returns -1 and makes no second call; else evaluates the mutated buffer and returns -1 iff that fails; replies are never read, so rflg is not checked |
| SamsungBookLaptop.Add | samsung-book-laptop.c:195-217 | registers the LED with max_brightness 3 and only a set callback, with no firmware call at all (no handshake) |
| SamsungBookSupport.TimerSub | support/samsung-book-support.c:41 | `timersub` of normalised times is normalised and equals the exact gap in microseconds |
| SamsungBookSupport.Debounce | support/samsung-book-support.c:50 | `sec >= 0 && usec >= 300000 \|\| sec > 0` on a normalised gap holds iff the gap is at least 300 ms |
| SamsungBookSupport.CRem | support/samsung-book-support.c:66 | C's truncating `%`: the dividend is a multiple of the divisor plus the result, which has the dividend's sign and magnitude below the divisor; identity below the divisor, zero at it |
| SamsungBookSupport.NextBrightness | support/samsung-book-support.c:66 | `(b+1) % (max+1)` steps b < max up by one, wraps max to 0, and keeps [0, max] |
| SamsungBookSupport.HandleEventSpec | support/samsung-book-support.c:29-87 | short, empty and non-hotkey reads call nothing and leave pv alone; every hotkey (EV_MSC, value 0xac) becomes pv before the debounce; calls happen iff the gap to the previous key event is at least 300 ms; GetBrightness first; exactly [GetBrightness] when it did not answer; exactly [GetBrightness, SetBrightness(next)] when it did |
| SamsungBookSupport.KeyHandler.constructor | support/samsung-book-support.c:20-24 | pv starts as the all-zero event and brightness_max as 0 |
| SamsungBookSupport.KeyHandler.MaxBrightnessReady | support/samsung-book-support.c:105-118 | brightness_max is assigned only when GetMaxBrightness answered |
| SamsungBookSupport.KeyHandler.HandleEvent | support/samsung-book-support.c:22-90 | always returns TRUE; the new pv and the D-Bus calls are those of the step function |
| SamsungBookSupport.RunPvIsLastHotkey | support/samsung-book-support.c:40-42 | after any sequence of reads pv is the most recent hotkey event, so the gap is measured from the last key event, not the last accepted one |
| SamsungBookSupport.Presses | support/samsung-book-support.c:66 | any number of steps from a level in [0, max] stays in [0, max] |
| SamsungBookSupport.PressesClimb | support/samsung-book-support.c:66 | below the maximum, j steps from b reach b + j |
| SamsungBookSupport.PressesAdd | support/samsung-book-support.c:66 | i + j steps are i steps followed by j steps |
| SamsungBookSupport.PressesFullCycle | support/samsung-book-support.c:66 | max + 1 steps return to the starting level |
| SamsungBookSupport.PressesReachEvery | support/samsung-book-support.c:66 | from any level every level in [0, max] is reached within max steps |

## Left out

- ACPI evaluation internals are abstracted by the oracle. This covers `acpi_device_handle`, the object list and `ACPI_ALLOCATE_BUFFER`. The `kfree` of the reply, and its leak on the error paths, are not modelled either.
- A NULL `ret_obj` after a successful evaluation is not modelled: the C dereferences it.
- samsung-book-laptop.c:77 passes `&buf`, the address of the pointer, as the request. The model sends the buffer's bytes, which was evidently intended; with the code as written the firmware receives bytes of the stack instead.
- The byte-dump loop (samsung-book-laptop.c:68-69) and every `pr_info`/`pr_err` are logging.
- `struct scai_buffer` is padded to 146 bytes by the u16 alignment. The one trailing padding byte is not modelled because no code reads it.
- LED class registration and unregistration (`scai_remove`), `devm_kzalloc`, `container_of` and the driver tables are left out: they are kernel plumbing. Allocation and registration are represented only by their outcome (`allocOk`, `registerErr`).
- `scai_notify` only logs.
- GLib/GIO, the D-Bus proxy, opening the evdev file and the `GApplication` lifecycle are I/O. `current` is the answer of GetBrightness. SetBrightness's failure changes nothing.
- SamsungBookSupport.NextBrightness: C undefined behaviour is excluded by its precondition rather than modelled. This covers `b + 1` or `max + 1` overflowing `int` and division by zero when `brightness_max` is -1.
- SamsungBookSupport.TimerSub: the 64-bit range of `time_t` is not modelled (integers are unbounded).
- SamsungBookSupport.HandleEvent: a partial read's lost bytes and the read's GError are not modelled. Only the byte count decides.
- The extended view is never sent: the CSXI method, battery limit, autoboot, webcam, performance mode and SDLS/SETM do not appear in these files.

## Findings

| source | as written | input that shows it | evidently intended | confidence | as-written member | corrected member |
|---|---|---|---|---|---|---|
| samsung_acpi.c:135 | `gunm != 0xdd && guds[0] != 0xcc` returns -ENODEV only when both acknowledgement fields mismatch | a CSFI-accepted reply with gunm 0xdd and guds[0] 0x00 gives 0 | refuse unless both fields acknowledge (`\|\|`) | medium, not executed | SamsungAcpi.EnableCommandAsWritten, SamsungAcpi.EnableCommandsAsWritten, SamsungAcpi.AddAsWritten (SamsungAcpi.AckCheckAcceptsOneField) | SamsungAcpi.EnableCommand, SamsungAcpi.EnableCommands, SamsungAcpi.Add |

`SamsungAcpi.EnableCommandsAsWritten` and `SamsungAcpi.AddAsWritten` are the attach path as written, over
`SamsungAcpi.EnableCommandAsWritten`; `SamsungAcpi.EnableCommands` and `SamsungAcpi.Add` are the same path over
the corrected `SamsungAcpi.EnableCommand`.
