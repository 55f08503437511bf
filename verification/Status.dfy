/** Status codes and capacities shared by both worlds (src/both/include/sk_both.h, sk_both_tapi.h). */
module Status {
  const SUCCESS: int := 0
  const FAILED: int := -1
  const INVALID_CMD: int := -2
  const INVALID_PARAM: int := -3
  const OPEN_CONTEXT: int := -6
  const CLOSE_CONTEXT: int := -7
  const OPEN_SESSION: int := -8
  const CLOSE_SESSION: int := -9
  const INV_CMD: int := -10
  const REGMEM_CMD: int := -11
  const UNREGMEM_CMD: int := -12
  const CONTEXT_HANDLE_NOT_FOUND: int := -16
  const SESSION_HANDLE_NOT_FOUND: int := -17
  const VERIFY_FAILED: int := -18
  const NOT_FOUND: int := -22
  const NO_MEMORY: int := -23
  const BAD_CONTEXT_ID: int := -26
  const BAD_SM_ID: int := -27
  const FAILED_SHARED_MEMORY_REQ: int := -33
  const CHECK_CMD: int := -34
  const TAPP_LOAD: int := -35
  const TAPP_CALL: int := -38
  const TAPP_TIMEOUT: int := -39
  const TIMEOUT: int := -40
  const OPEN_FAILED: int := -41
  const COMM_READ_FAILED: int := -49
  const COMM_FAILED: int := -51

  /** What the packing and unpacking routines return. */
  const PACK_SUCCESS: int := 0
  const PACK_FAILED: int := -1
  const PACK_INVALID_PARAMS: int := -2

  datatype Option<+T> = None | Some(value: T)
}
