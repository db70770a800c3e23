/** The register map and bit fields of the MT9V032/MT9V034 that the driver touches
    (mt9v032.c lines 43-143). Addresses are 8-bit, register values 16-bit. */
module Registers {
  const PIXEL_ARRAY_HEIGHT: int := 492
  const PIXEL_ARRAY_WIDTH: int := 782

  const CHIP_VERSION: int := 0x00
  const CHIP_ID_REV1: int := 0x1311
  const CHIP_ID_REV3: int := 0x1313
  const MT9V034_CHIP_ID_REV1: int := 0x1324

  const COLUMN_START: int := 0x01
  const COLUMN_START_MIN: int := 1
  const COLUMN_START_DEF: int := 1
  const COLUMN_START_MAX: int := 752

  const ROW_START: int := 0x02
  const ROW_START_MIN: int := 4
  const ROW_START_DEF: int := 5
  const ROW_START_MAX: int := 482

  const WINDOW_HEIGHT: int := 0x03
  const WINDOW_HEIGHT_MIN: int := 1
  const WINDOW_HEIGHT_DEF: int := 480
  const WINDOW_HEIGHT_MAX: int := 480

  const WINDOW_WIDTH: int := 0x04
  const WINDOW_WIDTH_MIN: int := 1
  const WINDOW_WIDTH_DEF: int := 752
  const WINDOW_WIDTH_MAX: int := 752

  const HORIZONTAL_BLANKING: int := 0x05
  /** The floor s_stream uses; it is the MT9V032 minimum, also on a MT9V034. */
  const HORIZONTAL_BLANKING_MIN: int := 43

  const CHIP_CONTROL: int := 0x07
  const CHIP_CONTROL_MASTER_MODE: bv16 := 0x0008
  const CHIP_CONTROL_DOUT_ENABLE: bv16 := 0x0080
  const CHIP_CONTROL_SEQUENTIAL: bv16 := 0x0100

  const TOTAL_SHUTTER_WIDTH: int := 0x0b
  const TOTAL_SHUTTER_WIDTH_MIN: int := 1
  const TOTAL_SHUTTER_WIDTH_DEF: int := 480
  const TOTAL_SHUTTER_WIDTH_MAX: int := 32767
  const RESET: int := 0x0c

  const READ_MODE: int := 0x0d
  const READ_MODE_ROW_BIN_MASK: bv16 := 0x0003
  const READ_MODE_ROW_BIN_SHIFT: bv16 := 0
  const READ_MODE_COLUMN_BIN_MASK: bv16 := 0x000c
  const READ_MODE_COLUMN_BIN_SHIFT: bv16 := 2

  const ANALOG_GAIN: int := 0x35
  const ANALOG_GAIN_MIN: int := 16
  const ANALOG_GAIN_DEF: int := 16
  const ANALOG_GAIN_MAX: int := 64

  const ROW_NOISE_CORR_CONTROL: int := 0x70

  const PIXEL_CLOCK: int := 0x74
  const PIXEL_CLOCK_INV_PXL_CLK: bv16 := 0x0010

  const TEST_PATTERN: int := 0x7f
  const TEST_PATTERN_DATA_MASK: bv16 := 0x03ff
  const TEST_PATTERN_DATA_SHIFT: bv16 := 0
  const TEST_PATTERN_USE_DATA: bv16 := 0x0400
  const TEST_PATTERN_GRAY_MASK: bv16 := 0x1800
  const TEST_PATTERN_GRAY_VERTICAL: bv16 := 0x0800
  const TEST_PATTERN_GRAY_HORIZONTAL: bv16 := 0x1000
  const TEST_PATTERN_GRAY_DIAGONAL: bv16 := 0x1800
  const TEST_PATTERN_ENABLE: bv16 := 0x2000
  const TEST_PATTERN_FLIP: bv16 := 0x4000

  const AEC_AGC_ENABLE: int := 0xaf
  const AEC_ENABLE: bv16 := 0x0001
  const AGC_ENABLE: bv16 := 0x0002
}
