/** The firmware channel shared by both driver snapshots: the command buffer as
    an object whose fields are assigned in place, `scai_command` (evaluate a
    buffer, check the reply's shape, copy it over the caller's result buffer),
    `scai_csfi_command` (the same through the CSFI method, then the response
    flag check) and `scai_kb_backlight_set`, which both snapshots write the same
    way. */
module ScaiChannel {
  import opened ScaiLayout
  import opened AcpiFirmware

  /** A `struct scai_buffer` in memory. */
  class ScaiBuffer {
    const bytes: array<byte>

    predicate Valid() {
      bytes.Length == BUFFER_SIZE
    }

    /** A fresh buffer with every byte zero-initialised. */
    constructor Zeroed()
      ensures Valid() && fresh(bytes) && bytes[..] == Zeros(BUFFER_SIZE)
    {
      bytes := new byte[BUFFER_SIZE](_ => 0);
    }

    method SetSafn(v: u16)
      requires Valid()
      modifies bytes
      ensures bytes[..] == WithU16(old(bytes[..]), SAFN_AT, v)
    {
      bytes[SAFN_AT] := v % 0x100;
      bytes[SAFN_AT + 1] := v / 0x100;
    }

    method SetSasb(v: u16)
      requires Valid()
      modifies bytes
      ensures bytes[..] == WithU16(old(bytes[..]), SASB_AT, v)
    {
      bytes[SASB_AT] := v % 0x100;
      bytes[SASB_AT + 1] := v / 0x100;
    }

    method SetGunm(v: byte)
      requires Valid()
      modifies bytes
      ensures bytes[..] == old(bytes[..])[GUNM_AT := v]
    {
      bytes[GUNM_AT] := v;
    }

    method SetGuds(i: nat, v: byte)
      requires Valid() && i < GUDS_LEN
      modifies bytes
      ensures bytes[..] == old(bytes[..])[GUDS_AT + i := v]
    {
      bytes[GUDS_AT + i] := v;
    }
  }

  /** The reply passes the shape checks of `scai_command`: the evaluation
      succeeded, it returned a buffer, and the buffer has exactly `len` bytes. */
  predicate TransportOk(reply: Reply, len: nat) {
    reply.Buffer? && |reply.data| == len
  }

  /** The caller's result buffer after a command of length `len`: when the
      reply passes the shape checks its `len` bytes replace the first `len`
      bytes and the rest is untouched; otherwise nothing changes. */
  function AfterReply(before: seq<byte>, reply: Reply, len: nat): (after: seq<byte>)
    requires len <= |before|
    ensures |after| == |before|
    ensures TransportOk(reply, len) ==> after[..len] == reply.data && after[len..] == before[len..]
    ensures !TransportOk(reply, len) ==> after == before
  {
    if TransportOk(reply, len) then reply.data + before[len..] else before
  }

  /** A CSFI round trip succeeds when the reply has the right shape and its
      response flag, the byte that lands on `rflg`, is the success marker. */
  predicate CsfiAccepted(reply: Reply) {
    TransportOk(reply, CSFI_LEN) && reply.data[RFLG_AT] == RFLG_SUCCESS
  }

  lemma CsfiAcceptedReadsRflg(before: seq<byte>, reply: Reply)
    requires |before| == BUFFER_SIZE && TransportOk(reply, CSFI_LEN)
    ensures CsfiAccepted(reply) <==> DecodeHeader(AfterReply(before, reply, CSFI_LEN)).rflg == RFLG_SUCCESS
  {
  }

  /** `scai_command`: sends the first `len` bytes of `buf` to method
      `pathname`; returns 0 and copies the reply over `ret` exactly when the
      reply passes the shape checks, and -1 with `ret` untouched otherwise.
      `buf` and `ret` may be the same buffer. */
  method Command(fw: Firmware, pathname: string, buf: ScaiBuffer, ret: ScaiBuffer, len: nat)
    returns (status: int)
    requires buf.Valid() && ret.Valid() && len <= BUFFER_SIZE
    modifies fw, ret.bytes
    ensures fw.calls == old(fw.calls) + [Call(pathname, old(buf.bytes[..len]))]
    ensures status == 0 <==> TransportOk(fw.LastReply(), len)
    ensures status == 0 || status == -1
    ensures ret.bytes[..] == AfterReply(old(ret.bytes[..]), fw.LastReply(), len)
  {
    var reply := fw.Evaluate(pathname, buf.bytes[..len]);
    match reply
    case EvalError =>
      status := -1;
    case NonBuffer =>
      status := -1;
    case Buffer(data) =>
      if |data| != len {
        return -1;
      }
      // Copy the reply over the first len bytes of ret.
      var i := 0;
      while i < len
        modifies ret.bytes
        invariant 0 <= i <= len
        invariant ret.bytes[..i] == data[..i]
        invariant ret.bytes[len..] == old(ret.bytes[len..])
      {
        ret.bytes[i] := data[i];
        i := i + 1;
      }
      assert ret.bytes[..] == ret.bytes[..len] + ret.bytes[len..];
      status := 0;
  }

  /** `scai_csfi_command`: a command through method "CSFI" of length 0x15
      with `buf` as both request and result. A transport failure is returned
      as is (-1); a reply whose response flag is not 0xaa gives -1 as well even
      though it was copied into `buf`. */
  method CsfiCommand(fw: Firmware, buf: ScaiBuffer) returns (status: int)
    requires buf.Valid()
    modifies fw, buf.bytes
    ensures fw.calls == old(fw.calls) + [Call("CSFI", old(buf.bytes[..CSFI_LEN]))]
    ensures status == 0 <==> CsfiAccepted(fw.LastReply())
    ensures status == 0 || status == -1
    ensures buf.bytes[..] == AfterReply(old(buf.bytes[..]), fw.LastReply(), CSFI_LEN)
  {
    status := Command(fw, "CSFI", buf, buf, CSFI_LEN);
    if status != 0 {
      return status;
    }
    if buf.bytes[RFLG_AT] != RFLG_SUCCESS {
      return -1;
    }
    return 0;
  }

  /** `scai_kb_backlight_set`: a zeroed buffer with sasb 0x78, gunm 0x82 and
      guds[0] = `value`, sent through CSFI; the CSFI result is returned. */
  method KbBacklightSet(fw: Firmware, value: byte) returns (err: int)
    modifies fw
    ensures fw.calls == old(fw.calls)
      + [Call("CSFI", GenericRequest(SCAI_SASB_KB_BACKLIGHT, SCAI_GUNM_KB_BACKLIGHT_SET, value)[..CSFI_LEN])]
    ensures err == (if CsfiAccepted(fw.LastReply()) then 0 else -1)
  {
    var buf := new ScaiBuffer.Zeroed();
    buf.SetSafn(SCAI_SAFN);
    buf.SetSasb(SCAI_SASB_KB_BACKLIGHT);
    buf.SetGunm(SCAI_GUNM_KB_BACKLIGHT_SET);
    buf.SetGuds(0, value);
    assert buf.bytes[..] == GenericRequest(SCAI_SASB_KB_BACKLIGHT, SCAI_GUNM_KB_BACKLIGHT_SET, value);
    err := CsfiCommand(fw, buf);
  }
}
