/** The shared value types exchanged between the three tiers. */
module Models {

  /** A record identifier (a Guid in the system). */
  type Id = nat

  /** A point in time, as ticks (a DateTime in the system). */
  type Ticks = int

  /** One stored random number: its identity, the drawn value, the bounds it
      was drawn from and the moment the producer built it. */
  datatype Record = Record(id: Id, value: int, min: int, max: int, createdAt: Ticks)

  /** One element of the external generator's reply. Its status text is never
      read by the system and is not part of the model. */
  datatype CsrngResponse = CsrngResponse(min: int, max: int, random: int)

  /** A possibly absent value: a null reference or an unset nullable int. */
  datatype Option<+T> = None | Some(value: T)

  /** The outcome of an endpoint: a success with its body, or one of the
      error shapes the tiers answer with. */
  datatype Response<+T> =
    | Ok(body: T)
    | BadRequest(error: string)
    | NotFound(missing: Id)
    | ServerError(status: int, error: string)

  /** A listing: the total and the records, newest first. */
  datatype NumbersPage = NumbersPage(totalCount: nat, numbers: seq<Record>)
}
