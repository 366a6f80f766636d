/** Option and Result wrappers used to model the exceptions the ensemble
    script can raise instead of returning. */
module Results {

  datatype Option<+T> = None | Some(value: T)

  datatype Result<+T, +E> = Ok(value: T) | Err(error: E)
}
