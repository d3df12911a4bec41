/** The database the client components write to is outside the model: each
    request to it is represented by its answer. */
module Store {
  /** How the store answers a write; a request that throws is answered like
      one that reports an error. */
  datatype StoreResult = Stored | StoreFailed(message: string)
}
