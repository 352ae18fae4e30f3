/**
 * The MMA8452Q accelerometer driver: the register writes that configure
 * the chip and the decode of a 7-byte read into three axis values.
 *
 * The I2C bus is a shared object that records every transaction in order;
 * the bytes a block read returns are a parameter, since they come from the
 * device.
 */
module Mma {
  import opened Common

  type Byte = x: int | 0 <= x < 256

  /** I2C address of the device. */
  const DefaultAddress: Byte := 0x1D
  /** Register map: data status (the start of the 7-byte read), data configuration, control register 1. */
  const RegStatus: Byte := 0x00
  const RegXyzDataCfg: Byte := 0x0E
  const RegCtrlReg1: Byte := 0x2A
  /** Data configuration: full-scale range 2g. */
  const DataCfgFs2: Byte := 0x00
  /** Control register 1: output data rate 800 Hz, normal mode, active mode. */
  const Odr800: Byte := 0x00
  const ModeNormal: Byte := 0x00
  const ModeActive: Byte := 0x01

  /** Bitwise or of two bytes. */
  function Or(a: Byte, b: Byte): Byte
  {
    ((a as bv8) | (b as bv8)) as int
  }

  /** One bus transaction: a register write, or a block read of count bytes starting at a register. */
  datatype Transaction = WriteByte(addr: Byte, reg: Byte, value: Byte) | ReadBlock(addr: Byte, reg: Byte, count: nat)

  /** The I2C bus, as the ordered record of the transactions issued on it. */
  class Bus {
    var trace: seq<Transaction>

    constructor ()
      ensures trace == []
    {
      trace := [];
    }

    /** write_byte_data: one register write to the device at addr. */
    method WriteByteData(addr: Byte, reg: Byte, value: Byte)
      modifies this
      ensures trace == old(trace) + [WriteByte(addr, reg, value)]
    {
      trace := trace + [WriteByte(addr, reg, value)];
    }

    /**
     * read_i2c_block_data: a block read whose answer, data, comes from the
     * device; the bus returns count bytes.
     */
    method ReadBlockData(addr: Byte, reg: Byte, count: nat, data: seq<Byte>) returns (r: seq<Byte>)
      requires |data| == count
      modifies this
      ensures r == data
      ensures trace == old(trace) + [ReadBlock(addr, reg, count)]
    {
      trace := trace + [ReadBlock(addr, reg, count)];
      r := data;
    }
  }

  /** One reading: the three decoded axes. */
  datatype Accel = Accel(x: real, y: real, z: real)

  /** The 16-bit value a (msb, lsb) register pair holds. */
  function Raw(msb: Byte, lsb: Byte): (r: int)
    ensures 0 <= r < 65536
  {
    msb * 256 + lsb
  }

  /**
   * The decode of one axis: (msb * 256 + lsb) / 16 in true division, minus
   * 4096 when it exceeds 2047.
   */
  function DecodeAxis(msb: Byte, lsb: Byte): (r: real)
    ensures -2049.0 < r <= 2047.0
    ensures r >= 0.0 <==> Raw(msb, lsb) as real / 16.0 <= 2047.0
    ensures r == Raw(msb, lsb) as real / 16.0 || r == Raw(msb, lsb) as real / 16.0 - 4096.0
  {
    var v := Raw(msb, lsb) as real / 16.0;
    if v > 2047.0 then v - 4096.0 else v
  }

  /** The signed value of a 12-bit two's-complement word. */
  function TwosComplement12(u: int): (v: int)
    requires 0 <= u < 4096
    ensures -2048 <= v <= 2047
    ensures v == u || v == u - 4096
  {
    if u >= 2048 then u - 4096 else u
  }

  /**
   * With the low nibble of lsb zero (how the chip left-justifies its 12-bit
   * samples), the decode is exactly the 12-bit two's-complement reading of
   * msb followed by the high nibble of lsb, hence an integer in [-2048, 2047].
   */
  lemma DecodeIsTwosComplement(msb: Byte, lsb: Byte)
    requires lsb % 16 == 0
    ensures DecodeAxis(msb, lsb) == TwosComplement12(msb * 16 + lsb / 16) as real
  {
    assert Raw(msb, lsb) == (msb * 16 + lsb / 16) * 16;
    assert Raw(msb, lsb) as real / 16.0 == (msb * 16 + lsb / 16) as real;
  }

  /** The register pair the chip holds for a 12-bit sample v, left-justified. */
  function EncodeAxis(v: int): (pair: (Byte, Byte))
    requires -2048 <= v <= 2047
    ensures pair.1 % 16 == 0
  {
    var u := if v < 0 then v + 4096 else v;
    (u / 16, (u % 16) * 16)
  }

  /** Decoding the register pair of any 12-bit sample gives the sample back. */
  lemma DecodeEncode(v: int)
    requires -2048 <= v <= 2047
    ensures DecodeAxis(EncodeAxis(v).0, EncodeAxis(v).1) == v as real
  {
    var (msb, lsb) := EncodeAxis(v);
    var u := if v < 0 then v + 4096 else v;
    assert msb * 16 + lsb / 16 == u;
    DecodeIsTwosComplement(msb, lsb);
  }

  /** The decode of a whole 7-byte read: status byte, then X, Y and Z as (msb, lsb) pairs. */
  function DecodeBlock(data: seq<Byte>): (a: Accel)
    requires |data| == 7
    ensures a.x == DecodeAxis(data[1], data[2])
    ensures a.y == DecodeAxis(data[3], data[4])
    ensures a.z == DecodeAxis(data[5], data[6])
  {
    Accel(DecodeAxis(data[1], data[2]), DecodeAxis(data[3], data[4]), DecodeAxis(data[5], data[6]))
  }

  /** The status byte never affects the reading. */
  lemma StatusIgnored(data: seq<Byte>, status: Byte)
    requires |data| == 7
    ensures DecodeBlock(data[0 := status]) == DecodeBlock(data)
  {
  }

  /** The accelerometer, talking over a shared bus. */
  class Mma8452q {
    const bus: Bus

    /** __init__: configure control register 1, then the data configuration register. */
    constructor (bus: Bus)
      modifies bus
      ensures this.bus == bus
      ensures bus.trace == old(bus.trace) + [WriteByte(DefaultAddress, RegCtrlReg1, 0x01),
                                             WriteByte(DefaultAddress, RegXyzDataCfg, 0x00)]
    {
      this.bus := bus;
      new;
      ModeConfiguration(None);
      DataConfiguration();
    }

    /** write: one register write to the device. */
    method Write(register: Byte, setting: Byte)
      modifies bus
      ensures bus.trace == old(bus.trace) + [WriteByte(DefaultAddress, register, setting)]
    {
      bus.WriteByteData(DefaultAddress, register, setting);
    }

    /**
     * mode_configuration: write control register 1 with the given mode, or
     * with 800 Hz, normal, active when no mode is given.
     */
    method ModeConfiguration(mode: Option<Byte>)
      modifies bus
      ensures bus.trace == old(bus.trace) + [WriteByte(DefaultAddress, RegCtrlReg1, ModeConfig(mode))]
    {
      var modeConfig: Byte;
      if mode == None {
        modeConfig := Or(Or(Odr800, ModeNormal), ModeActive);
      } else {
        modeConfig := mode.value;
      }
      bus.WriteByteData(DefaultAddress, RegCtrlReg1, modeConfig);
    }

    /** data_configuration: write the data configuration register with full-scale range 2g. */
    method DataConfiguration()
      modifies bus
      ensures bus.trace == old(bus.trace) + [WriteByte(DefaultAddress, RegXyzDataCfg, DataCfgFs2)]
    {
      bus.WriteByteData(DefaultAddress, RegXyzDataCfg, DataCfgFs2);
    }

    /**
     * read_accl: one 7-byte block read from the status register; data is
     * what the device answers.
     */
    method ReadAccl(data: seq<Byte>) returns (a: Accel)
      requires |data| == 7
      modifies bus
      ensures a == DecodeBlock(data)
      ensures bus.trace == old(bus.trace) + [ReadBlock(DefaultAddress, RegStatus, 7)]
    {
      var block := bus.ReadBlockData(DefaultAddress, RegStatus, 7, data);
      var xAccl := Raw(block[1], block[2]) as real / 16.0;
      if xAccl > 2047.0 {
        xAccl := xAccl - 4096.0;
      }
      var yAccl := Raw(block[3], block[4]) as real / 16.0;
      if yAccl > 2047.0 {
        yAccl := yAccl - 4096.0;
      }
      var zAccl := Raw(block[5], block[6]) as real / 16.0;
      if zAccl > 2047.0 {
        zAccl := zAccl - 4096.0;
      }
      a := Accel(xAccl, yAccl, zAccl);
    }
  }

  /** The value control register 1 receives: the given mode, or 0x01 (800 Hz, normal, active) when none is given. */
  function ModeConfig(mode: Option<Byte>): (r: Byte)
    ensures mode == None ==> r == 0x01
    ensures mode.Some? ==> r == mode.value
  {
    if mode == None then Or(Or(Odr800, ModeNormal), ModeActive) else mode.value
  }
}
