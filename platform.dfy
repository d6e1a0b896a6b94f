/** Values shared by every driver: the outcome of a call that may panic, and an
    optional value (a callback slot that may hold NULL). */
module Platform {

  /** The Pico SDK's `panic` ends the program; a call that would panic returns
      Panic instead, and its contract says what it left in the state. */
  datatype Status = Ok | Panic(reason: string)

  datatype Option<T> = None | Some(value: T)

  /** Identifies a completion callback; invoking it is recorded, not executed. */
  type CallbackId = nat
}
