/** Errors of the application, and the failure-compatible result type that carries them. */
module Results {

  datatype Option<+T> = None | Some(value: T)

  datatype Kind = Internal | Invalid | NotFound | Conflict | Unprocessable

  /** One constructor per error code; where the source reuses a code for two kinds, two constructors. */
  datatype Error =
    | InvalidStay | StayTooLong
    | InvalidCurrency | NegativeAmount | CurrencyMismatch
    | ClosedToArrival | ClosedToDeparture | RateUnavailable | RateWithoutCurrency | MinStayNotMet
    | InvalidQuote | InvalidUnits | NoInventory | SoldOut
    | MissingIdentifier | InvalidGuestCount | OccupancyExceeded | InvalidGuest
    | AlreadyCancelled | StayStarted
    | RecordNotFound | RoomTypeNotFound | PropertyNotFound | RatePlanMismatch
    | KeyReused | RequestInProgress | KeyLost
    | DuplicateReference | DatabaseError | CorruptReservation | CorruptRate
    | InvalidAllotment | InvalidRange | NoRates | InvalidRateInput
    | Aborted

  function KindOf(e: Error): Kind {
    match e
    case RateWithoutCurrency | KeyLost | DatabaseError | CorruptReservation | CorruptRate | Aborted => Internal
    case RecordNotFound | RoomTypeNotFound | PropertyNotFound => NotFound
    case KeyReused | RequestInProgress | DuplicateReference | SoldOut | AlreadyCancelled | StayStarted => Conflict
    case ClosedToArrival | ClosedToDeparture | RateUnavailable | MinStayNotMet | NoInventory | OccupancyExceeded =>
      Unprocessable
    case _ => Invalid
  }

  datatype Result<+T> = Ok(value: T) | Err(error: Error) {
    predicate IsFailure() {
      Err?
    }

    function PropagateFailure<U>(): Result<U>
      requires Err?
    {
      Err(error)
    }

    function Extract(): T
      requires Ok?
    {
      value
    }
  }
}
