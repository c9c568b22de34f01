/** The records the service exchanges and stores. */
module Model {
  import opened Decimal

  /** The JSON body of POST /user/{userId}/transaction; a missing field decodes as "". */
  datatype TransactionRequest = TransactionRequest(state: string, amount: string, transactionId: string)

  /**
   * One row of the transactions table. The row's serial id and its processing timestamp are
   * not modelled; the amount is the request's own string, as it is inserted.
   */
  datatype Transaction = Transaction(
    userId: uint64,
    transactionId: string,
    sourceType: string,
    state: string,
    amount: string)
}
