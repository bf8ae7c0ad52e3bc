/**
 * What the frontend views share: the outcome of a backend call, which the
 * model receives as an input instead of performing the call, and the
 * status of the toast notification a handler shows.
 */
module Ui {

  /** How an awaited call ended: its response, or a thrown error. */
  datatype Outcome<+T> = Succeeded(data: T) | Failed

  /** The `status` of a Chakra toast. */
  datatype ToastStatus = Success | Info | Warning | Error
}
