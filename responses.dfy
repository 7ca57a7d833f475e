/** The response envelope every service method returns (`BaseResponse<T>`),
    the outcome of a store read, and what a controller guard does with a
    request. */
module Responses {
  import opened CSharp

  datatype HttpStatus = OK | NOT_FOUND | INTERNAL_SERVER_ERROR

  /** Why an exception reached a service's `catch` block. */
  datatype Fault =
    | StoreFault     // the database read threw (`FirstAsync` throws when no document matches)
    | Overflow       // Convert.ToInt32 or a checked sum overflowed
    | NullReference  // a null request field was dereferenced

  /** `ResponseMessage`: empty unless a branch sets it. */
  datatype Message =
    | NoMessage
    | ProductNotFound(productId: Option<string>)  // "Could not find the product by Id {id}"
    | StateContributionsMissing                   // "Could not retrieve the state contribution values"
    | ExceptionMessage(fault: Fault)              // ex.Message

  /** `BaseResponse<T>`: `Status` defaults to OK and `ResponseMessage` to empty. */
  datatype BaseResponse<T> = BaseResponse(data: Option<T>, status: HttpStatus, message: Message)

  /** The result of reading one record (or the whole schedule) from the
      store: the record, a null, or an exception. */
  datatype Fetched<T> = Found(value: T) | NullResult | Threw

  function Success<T>(data: T): BaseResponse<T> {
    BaseResponse(Some(data), OK, NoMessage)
  }

  function Failed<T>(fault: Fault): BaseResponse<T> {
    BaseResponse(None, INTERNAL_SERVER_ERROR, ExceptionMessage(fault))
  }

  function NotFound<T>(message: Message): BaseResponse<T> {
    BaseResponse(None, NOT_FOUND, message)
  }

  /** A controller action either throws before reaching its service or
      forwards a call to it. */
  datatype Dispatch<C> = Rejected(exception: Exception) | Forwarded(call: C)
}
