/** Where a receipt is between upload and confirmation. */
module ReceiptStatus {
  datatype Status = Uploaded | Processing | ReadyForReview | Confirmed | Failed
}
