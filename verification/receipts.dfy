/** Where an external receipt stands (lib/ledger/contracts/external_receipt_registry.ts). */
module Receipts {

  datatype ReceiptStatus = Anchored | Finalized | Challenged
}
