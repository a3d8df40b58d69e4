/** The JSON replies of the handlers: `{success: true, ...}` sent with some HTTP status,
    or `{success: false, error: message}`. */
module Http {

  datatype Response<+T> = Ok(status: nat, payload: T) | Fail(status: nat, error: string)
}
