/** The status column of the withdrawals table. */
module WithdrawalStatus {
  /** `Absent`: the row does not exist yet. */
  datatype Status =
    | Absent | Processing | SubmittingGateway | Delivering | Completed | NeedsReview | Failed | Refunded
}
