/**
 The error-carrying result shared by the validators: `Ok` holds the checked
 value, `Err` the static message the program reports.
 */
module Results {

  datatype Result<+T> = Ok(value: T) | Err(error: string)

}
