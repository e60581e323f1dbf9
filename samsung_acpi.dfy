/** The first driver snapshot (samsung_acpi.c): on attach it runs the enable
    handshake for the keyboard backlight and only then registers the LED, which
    it can both set and read back. */
module SamsungAcpi {
  import opened Wrappers
  import opened ScaiLayout
  import opened AcpiFirmware
  import opened ScaiChannel

  const ENODEV: int := 19
  const ENOMEM: int := 12

  /** The LED class device the driver registers. */
  datatype KbLed = KbLed(name: string, maxBrightness: nat, readable: bool)

  const KB_LED := KbLed("scai::kbd_backlight", 3, true)

  /** Both acknowledgement fields of an enable reply carry their expected values. */
  predicate Acknowledged(reply: Reply)
    requires TransportOk(reply, CSFI_LEN)
  {
    reply.data[GUNM_AT] == GUNM_ENABLE_ACK && reply.data[GUDS_AT] == GUDS_ENABLE_ACK
  }

  /** Result of `scai_enable_command` with the acknowledgement test as written
      (-ENODEV only when gunm is not 0xdd and guds[0] is not 0xcc as well): a
      single matching field is enough for success. */
  function EnableStatusAsWritten(reply: Reply): (err: int)
    ensures err == 0 <==> (CsfiAccepted(reply)
      && (reply.data[GUNM_AT] == GUNM_ENABLE_ACK || reply.data[GUDS_AT] == GUDS_ENABLE_ACK))
    ensures err == -1 <==> !CsfiAccepted(reply)
    ensures err == 0 || err == -1 || err == -ENODEV
  {
    if !CsfiAccepted(reply) then -1
    else if reply.data[GUNM_AT] != GUNM_ENABLE_ACK && reply.data[GUDS_AT] != GUDS_ENABLE_ACK then -ENODEV
    else 0
  }

  /** Result of the enable handshake with the acknowledgement test corrected:
      success needs an accepted CSFI round trip and both fields acknowledged;
      an accepted round trip without both acknowledgements is -ENODEV. */
  function EnableStatus(reply: Reply): (err: int)
    ensures err == 0 <==> CsfiAccepted(reply) && Acknowledged(reply)
    ensures err == -ENODEV <==> CsfiAccepted(reply) && !Acknowledged(reply)
    ensures err == -1 <==> !CsfiAccepted(reply)
  {
    if !CsfiAccepted(reply) then -1
    else if reply.data[GUNM_AT] != GUNM_ENABLE_ACK || reply.data[GUDS_AT] != GUDS_ENABLE_ACK then -ENODEV
    else 0
  }

  /** A reply that acknowledges in gunm only: the test as written accepts it,
      the corrected one refuses it. */
  lemma AckCheckAcceptsOneField()
    ensures var reply := Buffer([0x43, 0x58, 0x78, 0, RFLG_SUCCESS, GUNM_ENABLE_ACK, 0] + Zeros(CSFI_LEN - 7));
      EnableStatusAsWritten(reply) == 0 && EnableStatus(reply) == -ENODEV
  {
  }

  /** The enable request: zeroed, safn 0x5843, sasb = `sasb`, gunm 0xbb,
      guds[0] 0xaa. */
  method NewEnableBuffer(sasb: u16) returns (buf: ScaiBuffer)
    ensures fresh(buf.bytes) && buf.Valid()
    ensures buf.bytes[..] == GenericRequest(sasb, GUNM_ENABLE, GUDS_ENABLE)
  {
    buf := new ScaiBuffer.Zeroed();
    buf.SetSafn(SCAI_SAFN);
    buf.SetSasb(sasb);
    buf.SetGunm(GUNM_ENABLE);
    buf.SetGuds(0, GUDS_ENABLE);
  }

  /** `scai_enable_command` exactly as written. */
  method EnableCommandAsWritten(fw: Firmware, sasb: u16) returns (err: int)
    modifies fw
    ensures fw.calls == old(fw.calls) + [Call("CSFI", GenericRequest(sasb, GUNM_ENABLE, GUDS_ENABLE)[..CSFI_LEN])]
    ensures err == EnableStatusAsWritten(fw.LastReply())
  {
    var buf := NewEnableBuffer(sasb);
    err := CsfiCommand(fw, buf);
    if err != 0 {
      return err;
    }
    assert buf.bytes[..CSFI_LEN] == fw.LastReply().data;
    if buf.bytes[GUNM_AT] != GUNM_ENABLE_ACK && buf.bytes[GUDS_AT] != GUDS_ENABLE_ACK {
      return -ENODEV;
    }
    return 0;
  }

  /** `scai_enable_command` with the acknowledgement test corrected: -ENODEV
      unless both fields carry their acknowledgement values. */
  method EnableCommand(fw: Firmware, sasb: u16) returns (err: int)
    modifies fw
    ensures fw.calls == old(fw.calls) + [Call("CSFI", GenericRequest(sasb, GUNM_ENABLE, GUDS_ENABLE)[..CSFI_LEN])]
    ensures err == EnableStatus(fw.LastReply())
  {
    var buf := NewEnableBuffer(sasb);
    err := CsfiCommand(fw, buf);
    if err != 0 {
      return err;
    }
    assert buf.bytes[..CSFI_LEN] == fw.LastReply().data;
    if buf.bytes[GUNM_AT] != GUNM_ENABLE_ACK || buf.bytes[GUDS_AT] != GUDS_ENABLE_ACK {
      return -ENODEV;
    }
    return 0;
  }

  /** `scai_kb_backlight_get`: sends gunm 0x81 and reads the level back from
      the selector byte. `value` is written whatever the outcome: the reply's
      gunm when the reply reached the buffer, the request's 0x81 when it did
      not. */
  method KbBacklightGet(fw: Firmware) returns (err: int, value: byte)
    modifies fw
    ensures fw.calls == old(fw.calls)
      + [Call("CSFI", GenericRequest(SCAI_SASB_KB_BACKLIGHT, SCAI_GUNM_KB_BACKLIGHT_GET, 0)[..CSFI_LEN])]
    ensures err == (if CsfiAccepted(fw.LastReply()) then 0 else -1)
    ensures value == if TransportOk(fw.LastReply(), CSFI_LEN) then fw.LastReply().data[GUNM_AT]
                     else SCAI_GUNM_KB_BACKLIGHT_GET
  {
    var buf := new ScaiBuffer.Zeroed();
    buf.SetSafn(SCAI_SAFN);
    buf.SetSasb(SCAI_SASB_KB_BACKLIGHT);
    buf.SetGunm(SCAI_GUNM_KB_BACKLIGHT_GET);
    assert buf.bytes[..] == GenericRequest(SCAI_SASB_KB_BACKLIGHT, SCAI_GUNM_KB_BACKLIGHT_GET, 0);
    err := CsfiCommand(fw, buf);
    assert TransportOk(fw.LastReply(), CSFI_LEN) ==> buf.bytes[GUNM_AT] == buf.bytes[..CSFI_LEN][GUNM_AT];
    value := buf.bytes[GUNM_AT];
  }

  /** `scai_enable_commands` exactly as written: the backlight handshake with
      the acknowledgement test of `scai_enable_command` as written. */
  method EnableCommandsAsWritten(fw: Firmware) returns (err: int)
    modifies fw
    ensures fw.calls == old(fw.calls)
      + [Call("CSFI", GenericRequest(SCAI_SASB_KB_BACKLIGHT, GUNM_ENABLE, GUDS_ENABLE)[..CSFI_LEN])]
    ensures err == EnableStatusAsWritten(fw.LastReply())
  {
    err := EnableCommandAsWritten(fw, SCAI_SASB_KB_BACKLIGHT);
    if err != 0 {
      return err;
    }
    return 0;
  }

  /** `scai_enable_commands` over the corrected handshake: the handshake for
      the keyboard backlight. */
  method EnableCommands(fw: Firmware) returns (err: int)
    modifies fw
    ensures fw.calls == old(fw.calls)
      + [Call("CSFI", GenericRequest(SCAI_SASB_KB_BACKLIGHT, GUNM_ENABLE, GUDS_ENABLE)[..CSFI_LEN])]
    ensures err == EnableStatus(fw.LastReply())
  {
    err := EnableCommand(fw, SCAI_SASB_KB_BACKLIGHT);
    if err != 0 {
      return err;
    }
    return 0;
  }

  /** `scai_kb_led_set`: the LED core's brightness, stored into the u8
      guds[0] (so truncated to its low byte), set through the backlight
      command. */
  method KbLedSet(fw: Firmware, value: nat) returns (err: int)
    modifies fw
    ensures fw.calls == old(fw.calls)
      + [Call("CSFI", GenericRequest(SCAI_SASB_KB_BACKLIGHT, SCAI_GUNM_KB_BACKLIGHT_SET, value % 0x100)[..CSFI_LEN])]
    ensures err == (if CsfiAccepted(fw.LastReply()) then 0 else -1)
  {
    err := KbBacklightSet(fw, value % 0x100);
  }

  /** `scai_kb_led_get`: the level read back, or 0 when the command failed. */
  method KbLedGet(fw: Firmware) returns (brightness: nat)
    modifies fw
    ensures fw.calls == old(fw.calls)
      + [Call("CSFI", GenericRequest(SCAI_SASB_KB_BACKLIGHT, SCAI_GUNM_KB_BACKLIGHT_GET, 0)[..CSFI_LEN])]
    ensures brightness == if CsfiAccepted(fw.LastReply()) then fw.LastReply().data[GUNM_AT] else 0
    ensures brightness < 0x100
  {
    var err, value := KbBacklightGet(fw);
    if err != 0 {
      return 0;
    }
    return value;
  }

  /** `scai_add` exactly as written: the same attach sequence over the
      handshake as written, so a reply acknowledging in one field only still
      registers the LED. */
  method AddAsWritten(fw: Firmware, allocOk: bool, registerErr: int) returns (err: int, led: Option<KbLed>)
    modifies fw
    ensures !allocOk ==> err == -ENOMEM && led == None && fw.calls == old(fw.calls)
    ensures allocOk ==> (fw.calls == old(fw.calls)
      + [Call("CSFI", GenericRequest(SCAI_SASB_KB_BACKLIGHT, GUNM_ENABLE, GUDS_ENABLE)[..CSFI_LEN])])
    ensures allocOk && EnableStatusAsWritten(fw.LastReply()) != 0 ==>
      err == EnableStatusAsWritten(fw.LastReply()) && led == None
    ensures allocOk && EnableStatusAsWritten(fw.LastReply()) == 0 ==>
      err == registerErr && led == (if registerErr == 0 then Some(KB_LED) else None)
    ensures err == 0 <==> led.Some?
  {
    led := None;
    if !allocOk {
      return -ENOMEM, None;
    }
    err := EnableCommandsAsWritten(fw);
    if err != 0 {
      return;
    }
    err := registerErr;
    if err != 0 {
      return;
    }
    led := Some(KB_LED);
  }

  /** `scai_add` over the corrected handshake: allocate the driver data
      (`allocOk` is whether that succeeded), run the backlight handshake, and
      only when it succeeded register the LED with maximum brightness 3
      (`registerErr` is what the registration returns). `led` is the LED left
      registered. */
  method Add(fw: Firmware, allocOk: bool, registerErr: int) returns (err: int, led: Option<KbLed>)
    modifies fw
    ensures !allocOk ==> err == -ENOMEM && led == None && fw.calls == old(fw.calls)
    ensures allocOk ==> (fw.calls == old(fw.calls)
      + [Call("CSFI", GenericRequest(SCAI_SASB_KB_BACKLIGHT, GUNM_ENABLE, GUDS_ENABLE)[..CSFI_LEN])])
    ensures allocOk && EnableStatus(fw.LastReply()) != 0 ==> err == EnableStatus(fw.LastReply()) && led == None
    ensures allocOk && EnableStatus(fw.LastReply()) == 0 ==>
      err == registerErr && led == (if registerErr == 0 then Some(KB_LED) else None)
    ensures err == 0 <==> led.Some?
  {
    led := None;
    if !allocOk {
      return -ENOMEM, None;
    }
    err := EnableCommands(fw);
    if err != 0 {
      return;
    }
    err := registerErr;
    if err != 0 {
      return;
    }
    led := Some(KB_LED);
  }
}
