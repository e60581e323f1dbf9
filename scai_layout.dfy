/** Byte layout of `struct scai_buffer`, the command block exchanged with the
    SCAI firmware. Both driver snapshots declare the same structure: a five-byte
    header (safn, sasb, rflg) followed by a 140-byte union read either as the
    generic view (gunm, guds[139]) or as the extended view (caid[128], fncn,
    subn, iob0..iob9). The buffer is one fixed-length byte sequence here and each
    view is a pair of pure encode/decode functions over it. Multi-byte fields are
    little-endian, the byte order of the x86 target. */
module ScaiLayout {

  type byte = x: int | 0 <= x < 0x100
  type u16 = x: int | 0 <= x < 0x1_0000

  /** Bytes of the structure that carry fields (2 + 2 + 1 + 140). */
  const BUFFER_SIZE: nat := 145
  /** Bytes sent and received by the CSFI method. */
  const CSFI_LEN: nat := 0x15

  const SCAI_SAFN: u16 := 0x5843
  const SCAI_SASB_KB_BACKLIGHT: u16 := 0x78
  const SCAI_GUNM_KB_BACKLIGHT_SET: byte := 0x82
  const SCAI_GUNM_KB_BACKLIGHT_GET: byte := 0x81
  /** Selector and first data byte of the enable handshake. */
  const GUNM_ENABLE: byte := 0xbb
  const GUDS_ENABLE: byte := 0xaa
  /** Acknowledgement values the enable handshake looks for in its reply. */
  const GUNM_ENABLE_ACK: byte := 0xdd
  const GUDS_ENABLE_ACK: byte := 0xcc
  /** Response flag the firmware writes on success. */
  const RFLG_SUCCESS: byte := 0xaa

  // Field offsets.
  const SAFN_AT: nat := 0
  const SASB_AT: nat := 2
  const RFLG_AT: nat := 4
  const HEADER_LEN: nat := 5
  const GUNM_AT: nat := 5
  const GUDS_AT: nat := 6
  const GUDS_LEN: nat := 139
  const CAID_AT: nat := 5
  const CAID_LEN: nat := 128
  const FNCN_AT: nat := 133
  const SUBN_AT: nat := 134
  const IOB_AT: nat := 135
  const IOB_LEN: nat := 10

  datatype Header = Header(safn: u16, sasb: u16, rflg: byte)

  datatype GenericView = GenericView(gunm: byte, guds: seq<byte>) {
    predicate Valid() { |guds| == GUDS_LEN }
  }

  datatype ExtendedView = ExtendedView(caid: seq<byte>, fncn: byte, subn: byte, iob: seq<byte>) {
    predicate Valid() { |caid| == CAID_LEN && |iob| == IOB_LEN }
  }

  function Zeros(n: nat): (z: seq<byte>)
    ensures |z| == n && forall i :: 0 <= i < n ==> z[i] == 0
  {
    seq(n, _ => 0)
  }

  /** The little-endian u16 stored at `at`. */
  function U16At(s: seq<byte>, at: nat): u16
    requires at + 2 <= |s|
  {
    s[at] as int + 0x100 * (s[at + 1] as int)
  }

  function U16Bytes(v: u16): (r: seq<byte>)
    ensures |r| == 2 && U16At(r, 0) == v
  {
    [v % 0x100, v / 0x100]
  }

  /** Assignment to a u16 field in place: the two bytes at `at` now hold `v`
      and every other byte is unchanged. */
  function WithU16(s: seq<byte>, at: nat, v: u16): (r: seq<byte>)
    requires at + 2 <= |s|
    ensures |r| == |s| && U16At(r, at) == v
    ensures r[..at] == s[..at] && r[at + 2..] == s[at + 2..]
  {
    s[at := v % 0x100][at + 1 := v / 0x100]
  }

  function DecodeHeader(s: seq<byte>): Header
    requires HEADER_LEN <= |s|
  {
    Header(U16At(s, SAFN_AT), U16At(s, SASB_AT), s[RFLG_AT])
  }

  function EncodeHeader(h: Header): (r: seq<byte>)
    ensures |r| == HEADER_LEN && DecodeHeader(r) == h
  {
    U16Bytes(h.safn) + U16Bytes(h.sasb) + [h.rflg]
  }

  function DecodeGeneric(s: seq<byte>): (g: GenericView)
    requires |s| == BUFFER_SIZE
    ensures g.Valid()
  {
    GenericView(s[GUNM_AT], s[GUDS_AT..])
  }

  /** The extended view reads the same payload bytes as the generic view:
      caid overlays gunm and guds[0..126], fncn is guds[127], subn is guds[128]
      and iob0..iob9 are guds[129..138]. */
  function DecodeExtended(s: seq<byte>): (e: ExtendedView)
    requires |s| == BUFFER_SIZE
    ensures e.Valid()
    ensures e.caid == [DecodeGeneric(s).gunm] + DecodeGeneric(s).guds[..CAID_LEN - 1]
    ensures e.fncn == DecodeGeneric(s).guds[CAID_LEN - 1]
    ensures e.subn == DecodeGeneric(s).guds[CAID_LEN]
    ensures e.iob == DecodeGeneric(s).guds[CAID_LEN + 1..]
  {
    ExtendedView(s[CAID_AT..CAID_AT + CAID_LEN], s[FNCN_AT], s[SUBN_AT], s[IOB_AT..])
  }

  function EncodeGeneric(h: Header, g: GenericView): (s: seq<byte>)
    requires g.Valid()
    ensures |s| == BUFFER_SIZE
    ensures DecodeHeader(s) == h && DecodeGeneric(s) == g
  {
    EncodeHeader(h) + [g.gunm] + g.guds
  }

  function EncodeExtended(h: Header, e: ExtendedView): (s: seq<byte>)
    requires e.Valid()
    ensures |s| == BUFFER_SIZE
    ensures DecodeHeader(s) == h && DecodeExtended(s) == e
  {
    EncodeHeader(h) + e.caid + [e.fncn, e.subn] + e.iob
  }

  /** Every 145-byte buffer is the generic encoding of its own decoding. */
  lemma GenericRoundTrip(s: seq<byte>)
    requires |s| == BUFFER_SIZE
    ensures EncodeGeneric(DecodeHeader(s), DecodeGeneric(s)) == s
  {
  }

  /** Every 145-byte buffer is the extended encoding of its own decoding. */
  lemma ExtendedRoundTrip(s: seq<byte>)
    requires |s| == BUFFER_SIZE
    ensures EncodeExtended(DecodeHeader(s), DecodeExtended(s)) == s
  {
  }

  /** A zero-initialised buffer whose safn, sasb, gunm and guds[0] are then
      assigned, in that order, as every generic command of the drivers is built.
      Every other field stays zero, and the first CSFI_LEN bytes, the part on
      the wire, are laid out byte by byte. */
  function GenericRequest(sasb: u16, gunm: byte, guds0: byte): (r: seq<byte>)
    ensures |r| == BUFFER_SIZE
    ensures DecodeHeader(r) == Header(SCAI_SAFN, sasb, 0)
    ensures DecodeGeneric(r) == GenericView(gunm, [guds0] + Zeros(GUDS_LEN - 1))
    ensures r[..CSFI_LEN] == [0x43, 0x58, sasb % 0x100, sasb / 0x100, 0, gunm, guds0] + Zeros(CSFI_LEN - 7)
  {
    var withSafn := WithU16(Zeros(BUFFER_SIZE), SAFN_AT, SCAI_SAFN);
    var withSasb := WithU16(withSafn, SASB_AT, sasb);
    var r := withSasb[GUNM_AT := gunm][GUDS_AT := guds0];
    assert r[GUDS_AT..] == [guds0] + Zeros(GUDS_LEN - 1);
    assert r[..CSFI_LEN] == [0x43, 0x58, sasb % 0x100, sasb / 0x100, 0, gunm, guds0] + Zeros(CSFI_LEN - 7);
    r
  }
}
