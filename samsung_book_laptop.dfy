/** The second driver snapshot (samsung-book-laptop.c): attach registers the
    LED at once, with no handshake and no read-back, and setting the LED does
    the handshake and the set itself, as two evaluations of one buffer whose
    replies are never looked at. */
module SamsungBookLaptop {
  import opened Wrappers
  import opened ScaiLayout
  import opened AcpiFirmware
  import opened ScaiChannel

  const ENOMEM: int := 12

  /** The LED class device the driver registers: write-only here. */
  datatype KbLed = KbLed(name: string, maxBrightness: nat, readable: bool)

  const KB_LED := KbLed("scai::kbd_backlight", 3, false)

  /** `scai_enable_command`: the 0xbb/0xaa handshake buffer through CSFI; the
      CSFI result is returned unchanged, with no acknowledgement test. */
  method EnableCommand(fw: Firmware, sasb: u16) returns (err: int)
    modifies fw
    ensures fw.calls == old(fw.calls) + [Call("CSFI", GenericRequest(sasb, GUNM_ENABLE, GUDS_ENABLE)[..CSFI_LEN])]
    ensures err == (if CsfiAccepted(fw.LastReply()) then 0 else -1)
  {
    var buf := new ScaiBuffer.Zeroed();
    buf.SetSafn(SCAI_SAFN);
    buf.SetSasb(sasb);
    buf.SetGunm(GUNM_ENABLE);
    buf.SetGuds(0, GUDS_ENABLE);
    err := CsfiCommand(fw, buf);
  }

  /** An evaluation whose result object is discarded succeeds unless the
      evaluation itself failed. */
  predicate Evaluated(reply: Reply) {
    !reply.EvalError?
  }

  /** The two requests `scai_kb_led_set` sends: the handshake, then the same
      bytes with gunm 0x82 and guds[0] = `level`, which together are the
      backlight-set request. */
  function HandshakeRequest(): seq<byte> {
    GenericRequest(SCAI_SASB_KB_BACKLIGHT, GUNM_ENABLE, GUDS_ENABLE)[..CSFI_LEN]
  }

  function SetRequest(level: byte): (r: seq<byte>)
    ensures r == HandshakeRequest()[GUNM_AT := SCAI_GUNM_KB_BACKLIGHT_SET][GUDS_AT := level]
  {
    GenericRequest(SCAI_SASB_KB_BACKLIGHT, SCAI_GUNM_KB_BACKLIGHT_SET, level)[..CSFI_LEN]
  }

  /** `scai_kb_led_set`: evaluates the handshake buffer; if that evaluation
      fails it returns -1 and makes no second call. Otherwise it changes gunm
      and guds[0] (the level truncated to a byte) in the same buffer and
      evaluates it again, returning -1 only if that evaluation fails. Neither
      reply is read, so the response flag is never checked. */
  method KbLedSet(fw: Firmware, value: nat) returns (err: int)
    modifies fw
    ensures var first := old(fw.calls) + [Call("CSFI", HandshakeRequest())];
      if !Evaluated(fw.respond(first)) then
        fw.calls == first && err == -1
      else
        fw.calls == first + [Call("CSFI", SetRequest(value % 0x100))]
        && err == (if Evaluated(fw.LastReply()) then 0 else -1)
  {
    var buf := new ScaiBuffer.Zeroed();
    buf.SetSafn(SCAI_SAFN);
    buf.SetSasb(SCAI_SASB_KB_BACKLIGHT);
    buf.SetGunm(GUNM_ENABLE);
    buf.SetGuds(0, GUDS_ENABLE);
    var status := fw.Evaluate("CSFI", buf.bytes[..CSFI_LEN]);
    if !Evaluated(status) {
      return -1;
    }
    buf.SetGunm(SCAI_GUNM_KB_BACKLIGHT_SET);
    buf.SetGuds(0, value % 0x100);
    status := fw.Evaluate("CSFI", buf.bytes[..CSFI_LEN]);
    if !Evaluated(status) {
      return -1;
    }
    return 0;
  }

  /** `scai_add`: allocate the driver data (`allocOk` is whether that
      succeeded) and register the LED with maximum brightness 3 (`registerErr`
      is what the registration returns); the firmware is never called. */
  method Add(fw: Firmware, allocOk: bool, registerErr: int) returns (err: int, led: Option<KbLed>)
    modifies fw
    ensures fw.calls == old(fw.calls)
    ensures !allocOk ==> err == -ENOMEM && led == None
    ensures allocOk ==> err == registerErr && led == (if registerErr == 0 then Some(KB_LED) else None)
  {
    if !allocOk {
      return -ENOMEM, None;
    }
    err := registerErr;
    if err != 0 {
      return err, None;
    }
    led := Some(KB_LED);
  }
}
