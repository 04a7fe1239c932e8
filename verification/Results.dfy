/** The result codes that the pipeline's functions return, and results that may be missing. */
module Results {
  datatype RetCode = CellOk | ErrFull | ErrFatal | ErrEmpty | ErrSeq

  datatype Option<+T> = None | Some(value: T)
}
