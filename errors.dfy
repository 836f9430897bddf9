/** Values shared by both sides of the enclave call bridge: machine integer
    ranges, SGX platform statuses and the `Status` values the bridge returns. */
module Errors {

  /** A C `int`, as used for in-enclave return codes (`ms_retval`). */
  type Int32 = x: int | -0x8000_0000 <= x < 0x8000_0000

  /** A `uint64_t`, as used for selectors and enclave ids. */
  type UInt64 = x: int | 0 <= x < 0x1_0000_0000_0000_0000

  /** A 64-bit address; 0 is the null pointer. */
  type Address = UInt64

  /** The number of distinct addresses, 2^64. */
  const AddressSpace: int := 0x1_0000_0000_0000_0000

  /** `sgx_enclave_id_t`. */
  type EnclaveId = UInt64

  datatype Option<+T> = None | Some(value: T)

  /** `sgx_status_t`. The bridge only ever distinguishes success, the
      "creation interrupted" condition that enclave creation retries on, and
      every other status, which it passes on unchanged; `code` stands for
      the numeric value of such other status. */
  datatype SgxStatus =
    | SgxSuccess
    | EnclaveCreateInterrupted
    | SgxFailure(code: nat)

  /** The canonical error codes the bridge produces in the Google error space. */
  datatype GoogleCode = FailedPrecondition | Internal | InvalidArgument

  /** An error either lives in the SGX error space, where it carries the
      platform status verbatim, or in the Google error space. */
  datatype ErrorSpace =
    | SgxSpace(sgx: SgxStatus)
    | GoogleSpace(code: GoogleCode)

  /** `asylo::Status`. */
  datatype Status =
    | OkStatus
    | Error(space: ErrorSpace, message: string)
}
