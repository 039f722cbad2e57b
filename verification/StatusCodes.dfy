/** The numbers that statuses and operation states have on the wire. */
module StatusCodes {
  const SUCCESS_STATUS := 0
  const ERROR_STATUS := 3
  const INVALID_HANDLE_STATUS := 4

  const RUNNING_STATE := 1
  const FINISHED_STATE := 2
  const CANCELED_STATE := 3
  const ERROR_STATE := 5
}
