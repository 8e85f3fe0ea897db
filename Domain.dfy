/** Domain events and the failures the core raises or lets through. */
module Domain {

  /** Something that happened inside an entity operation. Concrete payloads are
      defined by calling code; the model tells events apart by a name. */
  datatype DomainEvent = DomainEvent(name: string)

  /** The exceptions of the core, as values. */
  datatype Error =
    | DomainException(message: string)      // Events/DomainException.cs
    | InvalidOperation(message: string)     // System.InvalidOperationException
    | NullReference                         // System.NullReferenceException
    | DeliveryFailure(event: DomainEvent)   // raised by an ExecuteEvent hook

  /** A reference that may be null. */
  datatype Option<+T> = None | Some(value: T)

  /** A call that returns a value or throws. */
  datatype Result<+T> = Success(value: T) | Failure(error: Error)

  /** A call that returns nothing: it returns normally or throws. */
  datatype Outcome = Pass | Fail(error: Error)
}
