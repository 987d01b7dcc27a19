/** Values shared by the whole model: the 8-bit quantities the controller reads
    from the serial receiver and writes to its output port, and an optional value. */
module Common {

  /** An unsigned 8-bit value, as held by RCREG (the received byte) and PORTA. */
  type Byte = b: int | 0 <= b < 0x100

  datatype Option<T> = None | Some(value: T)
}
