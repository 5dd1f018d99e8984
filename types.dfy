/** Values shared by the storage, poster and callback modules. */
module Types {

  /** Python's `None` or a present value. */
  datatype Option<+T> = None | Some(value: T)

  /**
   * A challenge submission as the bot sees it: its stable id and the
   * creation time on the origin side, in whole epoch seconds.
   * The title, body and url only feed the message text, which is not modelled.
   */
  datatype Challenge = Challenge(id: string, createdUtc: int)
}
