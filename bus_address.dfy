/**
 * The register-address byte that the example's platform_read and
 * platform_write put on the sensor bus. Over I2C the register address is
 * handed to the memory-transfer call unchanged in both directions. Over SPI
 * the first byte clocked out is the address, with bit 7 set for a read.
 */
module BusAddress {

  datatype Bus = I2c | Spi

  datatype Direction = Read | Write

  /** Bit 7 of the SPI address byte: set for a read command. */
  const ReadBit: bv8 := 0x80

  /** The seven bits that carry the register number. */
  const RegisterMask: bv8 := 0x7F

  /**
   * The address byte sent for an access to register `reg`. Its low seven
   * bits are always those of `reg`; bit 7 is set on an SPI read and is
   * otherwise bit 7 of `reg`.
   */
  function AddressByte(bus: Bus, dir: Direction, reg: bv8): (a: bv8)
    ensures a & RegisterMask == reg & RegisterMask
    ensures a & ReadBit == (if bus == Spi && dir == Read then ReadBit else reg & ReadBit)
  {
    if bus == Spi && dir == Read then reg | ReadBit else reg
  }

  /** Over I2C, and for every SPI write, the register address goes out as it is. */
  lemma PassThroughUnlessSpiRead(bus: Bus, dir: Direction, reg: bv8)
    requires bus == I2c || dir == Write
    ensures AddressByte(bus, dir, reg) == reg
  {
  }

  /** For a register in the device's seven-bit address space an SPI read sends reg + 0x80. */
  lemma SpiReadOffset(reg: bv8)
    requires reg < 0x80
    ensures AddressByte(Spi, Read, reg) as int == reg as int + 0x80
  {
  }

  /** How the sensor reads an SPI address byte: bit 7 is the direction, the rest the register. */
  function DecodeSpiAddress(a: bv8): (Direction, bv8) {
    (if a & ReadBit != 0 then Read else Write, a & RegisterMask)
  }

  /** A seven-bit register address survives the trip through the SPI address byte, with its direction. */
  lemma SpiAddressRoundTrip(dir: Direction, reg: bv8)
    requires reg < 0x80
    ensures DecodeSpiAddress(AddressByte(Spi, dir, reg)) == (dir, reg)
  {
  }

  /**
   * A register number of eight bits does not survive: with bit 7 already set
   * the read and write address bytes coincide, and the decoded register
   * loses that bit.
   */
  lemma SpiAddressAmbiguousAboveSevenBits(reg: bv8)
    requires reg >= 0x80
    ensures AddressByte(Spi, Read, reg) == AddressByte(Spi, Write, reg)
    ensures DecodeSpiAddress(AddressByte(Spi, Write, reg)) == (Read, reg - 0x80)
  {
  }
}
