/**
 A value or nothing, for what the router's functions may fail to find, and the sizes of I2NP message buffers.
 */
module Wrappers {
  datatype Option<T> = None | Some(value: T)

  const I2NP_MAX_MESSAGE_SIZE: nat := 32768
  const I2NP_MAX_SHORT_MESSAGE_SIZE: nat := 4096
}
