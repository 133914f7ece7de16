/** The ioctl request-number encoding of `ioctl.h` and `videodev2.h`: a 32-bit
    word holding a transfer direction (2 bits), a driver "type" byte, a
    command number byte and a 14-bit argument size, as in the Linux
    `asm-generic/ioctl.h` layout. */
module IoctlCodes {

  // ---- field widths and the fixed layout of videodev2.h ----

  const NR_BITS: nat := 8
  const TYPE_BITS: nat := 8
  const SIZE_BITS: nat := 14
  const DIR_BITS: nat := 2

  /** Bit positions of the four fields inside a request number. */
  datatype Layout = Layout(nrShift: nat, typeShift: nat, sizeShift: nat, dirShift: nat)

  /** The shifts written out as literals in videodev2.h. */
  const FIXED_LAYOUT: Layout := Layout(0, 8, 16, 30)

  /** The shifts of ioctl.h, each field starting where the previous one ends. */
  function DerivedLayout(nrBits: nat, typeBits: nat, sizeBits: nat): (l: Layout)
    ensures l.nrShift == 0
    ensures l.typeShift == l.nrShift + nrBits
    ensures l.sizeShift == l.typeShift + typeBits
    ensures l.dirShift == l.sizeShift + sizeBits
  {
    Layout(0, nrBits, nrBits + typeBits, nrBits + typeBits + sizeBits)
  }

  /** With the 8/8/14-bit widths the derived shifts are the fixed ones, and the
      direction field ends exactly at bit 32. */
  lemma DerivedLayoutIsFixedLayout()
    ensures DerivedLayout(NR_BITS, TYPE_BITS, SIZE_BITS) == FIXED_LAYOUT
    ensures FIXED_LAYOUT.dirShift + DIR_BITS == 32
  {
  }

  // ---- masks ----

  /** `(1 << bits) - 1`: the mask of a field `bits` wide. */
  function Mask(bits: nat): (m: bv32)
    requires bits < 32
    ensures var k := bits as bv32;
      m & (m + 1) == 0 && m >> k == 0 && (k > 0 ==> m >> (k - 1) != 0)
  {
    ((1 as bv32) << bits) - 1
  }

  const NR_MASK: bv32 := Mask(NR_BITS)
  const TYPE_MASK: bv32 := Mask(TYPE_BITS)
  const SIZE_MASK: bv32 := Mask(SIZE_BITS)
  const DIR_MASK: bv32 := Mask(DIR_BITS)

  lemma MaskValues()
    ensures NR_MASK == 0xFF && TYPE_MASK == 0xFF
    ensures SIZE_MASK == 0x3FFF && DIR_MASK == 0x3
  {
  }

  // ---- directions ----

  const IOC_NONE: bv32 := 0
  const IOC_WRITE: bv32 := 1
  const IOC_READ: bv32 := 2

  // ---- encoding ----

  /** `_IOC(dir, type, nr, size)`: the four fields shifted into place and OR-ed. */
  function Ioc(dir: bv32, typ: bv32, nr: bv32, size: bv32): (code: bv32)
    ensures code & 0xFF == nr & 0xFF
    ensures FieldsFit(dir, typ, nr, size) ==> code >> 30 == dir
  {
    (dir << 30) | (typ << 8) | (nr << 0) | (size << 16)
  }

  /** The four fields fit their widths. */
  predicate FieldsFit(dir: bv32, typ: bv32, nr: bv32, size: bv32)
  {
    dir <= DIR_MASK && typ <= TYPE_MASK && nr <= NR_MASK && size <= SIZE_MASK
  }

  // ---- decoding: shift back and mask ----

  function IocDir(code: bv32): (d: bv32)
    ensures d <= DIR_MASK
  {
    (code >> 30) & DIR_MASK
  }

  function IocType(code: bv32): (t: bv32)
    ensures t <= TYPE_MASK
  {
    (code >> 8) & TYPE_MASK
  }

  function IocNr(code: bv32): (n: bv32)
    ensures n <= NR_MASK
  {
    (code >> 0) & NR_MASK
  }

  function IocSize(code: bv32): (s: bv32)
    ensures s <= SIZE_MASK
  {
    (code >> 16) & SIZE_MASK
  }

  /** Decoding recovers every field of an encoding whose fields fit. */
  lemma DecodeEncode(dir: bv32, typ: bv32, nr: bv32, size: bv32)
    requires FieldsFit(dir, typ, nr, size)
    ensures IocDir(Ioc(dir, typ, nr, size)) == dir
    ensures IocType(Ioc(dir, typ, nr, size)) == typ
    ensures IocNr(Ioc(dir, typ, nr, size)) == nr
    ensures IocSize(Ioc(dir, typ, nr, size)) == size
  {
  }

  /** The fields cover all 32 bits without overlapping: re-encoding the decoded
      fields gives back any request number. */
  lemma EncodeDecode(code: bv32)
    ensures Ioc(IocDir(code), IocType(code), IocNr(code), IocSize(code)) == code
  {
  }

  /** Two request numbers built from fitting fields are equal only when all
      four fields are. */
  lemma IocInjective(d1: bv32, t1: bv32, n1: bv32, s1: bv32, d2: bv32, t2: bv32, n2: bv32, s2: bv32)
    requires FieldsFit(d1, t1, n1, s1) && FieldsFit(d2, t2, n2, s2)
    requires Ioc(d1, t1, n1, s1) == Ioc(d2, t2, n2, s2)
    ensures d1 == d2 && t1 == t2 && n1 == n2 && s1 == s2
  {
    DecodeEncode(d1, t1, n1, s1);
    DecodeEncode(d2, t2, n2, s2);
  }

  // ---- the convenience macros ----

  /** `_IO(type, nr)`: no data transfer, size 0. */
  function Io(typ: bv32, nr: bv32): (code: bv32)
    ensures typ <= TYPE_MASK && nr <= NR_MASK ==>
      IocDir(code) == IOC_NONE && IocSize(code) == 0 && IocType(code) == typ && IocNr(code) == nr
  {
    Ioc(IOC_NONE, typ, nr, 0)
  }

  /** `_IOR(type, nr, T)`; `sizeofArg` stands for `sizeof(T)`. */
  function Ior(typ: bv32, nr: bv32, sizeofArg: bv32): (code: bv32)
    ensures FieldsFit(IOC_READ, typ, nr, sizeofArg) ==>
      IocDir(code) == IOC_READ && IocSize(code) == sizeofArg && IocType(code) == typ && IocNr(code) == nr
  {
    Ioc(IOC_READ, typ, nr, sizeofArg)
  }

  /** `_IOW(type, nr, T)`. */
  function Iow(typ: bv32, nr: bv32, sizeofArg: bv32): (code: bv32)
    ensures FieldsFit(IOC_WRITE, typ, nr, sizeofArg) ==>
      IocDir(code) == IOC_WRITE && IocSize(code) == sizeofArg && IocType(code) == typ && IocNr(code) == nr
  {
    Ioc(IOC_WRITE, typ, nr, sizeofArg)
  }

  /** `_IOWR(type, nr, T)`: both directions, `_IOC_READ | _IOC_WRITE`. */
  function Iowr(typ: bv32, nr: bv32, sizeofArg: bv32): (code: bv32)
    ensures FieldsFit(IOC_READ | IOC_WRITE, typ, nr, sizeofArg) ==>
      IocDir(code) == 3 && IocSize(code) == sizeofArg && IocType(code) == typ && IocNr(code) == nr
  {
    Ioc(IOC_READ | IOC_WRITE, typ, nr, sizeofArg)
  }

  /** The four macros give four different request numbers for the same
      type, number and (fitting) size. */
  lemma DirectionsDistinguishRequests(typ: bv32, nr: bv32, sizeofArg: bv32)
    requires typ <= TYPE_MASK && nr <= NR_MASK && 0 < sizeofArg <= SIZE_MASK
    ensures Io(typ, nr) != Ior(typ, nr, sizeofArg)
    ensures Ior(typ, nr, sizeofArg) != Iow(typ, nr, sizeofArg)
    ensures Iow(typ, nr, sizeofArg) != Iowr(typ, nr, sizeofArg)
    ensures Ior(typ, nr, sizeofArg) != Iowr(typ, nr, sizeofArg)
  {
  }
}
