/** Machine types and the records the driver keeps: a crop rectangle (struct
    v4l2_rect, all fields signed 32-bit in this kernel), an output format
    (struct v4l2_mbus_framefmt, unsigned 32-bit sizes) and the active/try
    selector of a pad operation. */
module Types {

  const S32_MIN: int := -0x8000_0000
  const S32_MAX: int := 0x7fff_ffff
  const U32_MAX: int := 0xffff_ffff

  type s32 = x: int | S32_MIN <= x <= S32_MAX
  type u32 = x: int | 0 <= x <= U32_MAX

  /** Kernel error numbers the core returns (negated, as the kernel does). */
  const ENODEV: int := 19
  const EINVAL: int := 22

  /** Media-bus and field/colour-space codes from the V4L2 headers. */
  const MBUS_FMT_SGRBG10_1X10: int := 0x300a
  const FIELD_NONE: int := 1
  const COLORSPACE_SRGB: int := 8

  datatype Rect = Rect(left: s32, top: s32, width: s32, height: s32)

  datatype Format = Format(code: int, width: u32, height: u32, field: int, colorspace: int)

  /** V4L2_SUBDEV_FORMAT_TRY or V4L2_SUBDEV_FORMAT_ACTIVE. */
  datatype Which = Try | Active

  /** The selection a pad operation does not touch. */
  function Other(w: Which): (r: Which)
    ensures r != w
  {
    if w == Try then Active else Try
  }

  datatype Option<T> = None | Some(value: T)

  /** A value, or the negative error code the kernel returns instead. */
  datatype Result<T> = Ok(value: T) | Err(code: int)

  /** Two's-complement wrap-around of a mathematical integer to 32 bits. */
  function Wrap32(x: int): (r: s32)
    ensures (r - x) % 0x1_0000_0000 == 0
    ensures S32_MIN <= x <= S32_MAX ==> r == x
  {
    (x - S32_MIN) % 0x1_0000_0000 + S32_MIN
  }

  /** Unsigned 32-bit wrap-around. */
  function WrapU32(x: int): (r: u32)
    ensures (r - x) % 0x1_0000_0000 == 0
    ensures 0 <= x <= U32_MAX ==> r == x
  {
    x % 0x1_0000_0000
  }

  /** Truncation of an int to the u16 a register write takes (the low 16 bits);
      a value that fits is written as it is. */
  function Trunc16(x: int): bv16
  {
    if 0 <= x < 0x1_0000 then x as bv16 else (x % 0x1_0000) as bv16
  }
}
