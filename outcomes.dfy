/** Outcomes shared by the account and content services: an HTTP failure status
    (the status codes the handlers raise) and a reply that is either a value or
    such a failure. */
module Outcomes {

  datatype Option<+T> = None | Some(value: T)

  /** The failure statuses the handlers end in: 400, 404 and 409 as the
      handlers raise them, and ServerError for an exception the handler does
      not catch (FastAPI answers it with 500). */
  datatype Status = BadRequest | NotFound | Conflict | ServerError

  datatype Reply<+T> = Ok(value: T) | Fail(status: Status)
}
