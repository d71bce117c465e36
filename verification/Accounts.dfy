/** Accounts as a transaction's instructions list them. */
module Accounts {
  import opened Bytes

  datatype AccountMeta = AccountMeta(key: Key, writable: bool, signer: bool)
}
