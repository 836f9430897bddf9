# SGX enclave call bridge — Dafny model

This project models the untrusted half of Asylo's SGX enclave call bridge
(`SgxEnclaveClient` in `asylo/platform/primitives/sgx/untrusted_sgx.cc`) and
the boundary checks that the trusted side applies to host-supplied buffers
(`asylo/platform/arch/sgx/trusted/host_calls.cc`).

- `errors.dfy` (module `Errors`): machine integer ranges, `sgx_status_t` as
  `SgxStatus`, and `asylo::Status` as `Status`. A `Status` is OK or an error in
  either the SGX error space or the Google error space.
- `untrusted_runtime.dfy` (module `UntrustedRuntime`): the untrusted heap.
  `malloc`/`free` work on it, with ghost logs of every allocation and every
  free. `free` accepts only a live block or null, so a double free cannot
  verify. The SGX untrusted runtime is an oracle whose answers are
  parameters. It keeps a ghost log of every gate entry (enclave id, call
  index, selector, input bytes, utility flag), every creation attempt, every destroy, and
  every `mmap`/`munmap`.
- `untrusted_sgx.dfy` (module `UntrustedSgx`): the `SgxEnclaveClient` class.
  Its fields are `id`, `size`, `baseAddress` and `isDestroyed`; `IsClosed()`
  reads `isDestroyed`. The module covers both loaders with the bounded
  creation retry, `Destroy`, and the four gate entry points with their call
  indices (dispatch 0, signal 1, snapshot 2, key transfer 4). It also has the
  pure functions that map a (gate status, return code, output length) triple
  to a `Status`.
- `host_calls.dfy` (module `HostCalls`): `CHECK_OCALL`,
  `enc_untrusted_allocate_buffers`, `enc_untrusted_deallocate_free_list` and
  `enc_untrusted_inotify_read`. Each ends in `Aborted` or `Returned(v)`.
  Enclave memory is an abstract interval, and `sgx_is_outside_enclave` is
  interval disjointness (`OutsideEnclave`).

Behaviour of the code worth noting:

- The snapshot and key-transfer calls reject a non-zero in-enclave return
  code, and they also reject an empty output (`untrusted_sgx.cc:112`, `:144`).
- The code's cleanup guard frees the primary call's output buffer on every
  exit path, not only after it is consumed (`untrusted_sgx.cc:302-309`).
- The embedded loader does not always release its reservation. If the image
  lookup fails after the reservation succeeded, it returns without calling
  `munmap` (`untrusted_sgx.cc:216-226`). `LoadEmbedded`'s contract shows this:
  the mapping log then ends with a `Reserve` that has no matching `Release`.
- The snapshot and key-transfer wrappers return early on a failed call
  without freeing any output buffer the enclave left behind
  (`untrusted_sgx.cc:392`, `:426`). Their contracts say so: on that path
  nothing is freed, and that buffer stays live in the heap.
- `EnterAndTakeSnapshot` and `EnterAndTransferSecureSnapshotKey` never test
  `is_destroyed_` (`untrusted_sgx.cc:388-441`). On a closed client they still
  enter the enclave. Their contracts log the gate entry whatever the client's
  state.
- The snapshot and key-transfer calls enter the gate as utility calls
  (`is_utility` true, `untrusted_sgx.cc:105`, `:136`); dispatch, signal
  delivery and teardown do not (`:320`, `:363`). Every gate entry in the log
  records this flag.

## Model

| member | source | states |
|---|---|---|
| `UntrustedSgx.RetryAttempts` | asylo/platform/primitives/sgx/untrusted_sgx.cc:176-187 | Creation is attempted between 1 and 5 times. Every attempt before the last was answered "creation interrupted". If fewer than 5 attempts were made, the last answer was something else. |
| `UntrustedSgx.RetriesStopAtFirstOtherStatus` | asylo/platform/primitives/sgx/untrusted_sgx.cc:184-186 | If the first answer other than "interrupted" comes at attempt k, exactly k+1 attempts are made and that answer is final. A first-attempt failure gives 1 attempt; success on the third attempt gives 3. |
| `UntrustedSgx.AlwaysInterruptedGivesUp` | asylo/platform/primitives/sgx/untrusted_sgx.cc:57 | A primitive that is always interrupted is tried exactly 5 times, and the final status is "interrupted". |
| `UntrustedSgx.SgxEnclaveClient.RetryCreate` | asylo/platform/primitives/sgx/untrusted_sgx.cc:242-250 | The loop issues exactly `RetryAttempts` creation requests, each with the same arguments. It leaves the last answer's status and enclave id. |
| `UntrustedSgx.SgxEnclaveClient.IsClosed` | asylo/platform/primitives/sgx/untrusted_sgx.cc:283 | True exactly when the client is destroyed. A new client starts closed. `Load` and `LoadEmbedded` open it only on success, and `Destroy` states when it is closed afterwards. |
| `UntrustedSgx.SgxEnclaveClient.Load` | asylo/platform/primitives/sgx/untrusted_sgx.cc:158-196 | The load fails exactly when the final attempt's status is not success. The error then carries that SGX status and no client is returned. Otherwise a fresh, open client gets the final id, the platform-reported size and the given base address. |
| `UntrustedSgx.SgxEnclaveClient.LoadEmbedded` | asylo/platform/primitives/sgx/untrusted_sgx.cc:198-260 | The range is reserved and released only when the base is non-null and the size is positive. A failed reserve, a failed image lookup and a failed release each return their error before any creation attempt. Otherwise the outcome is the same as `Load`, created from the section's bytes. |
| `UntrustedSgx.SgxEnclaveClient.EnclaveCallInternal` | asylo/platform/primitives/sgx/untrusted_sgx.cc:285-333 | A closed client returns FAILED_PRECONDITION: nothing reaches the gate, the heap and the reader are untouched. Otherwise there is one non-utility gate entry at index 0 with the selector and the writer's bytes. An input buffer is allocated only for a non-empty writer. The status is `DispatchStatus`. The reader is filled only on full success with an output. The allocation log only grows. Every buffer allocated during the call is freed, in allocation order, and no address is freed twice. The heap's live blocks are as before. |
| `UntrustedSgx.SgxEnclaveClient.DeliverSignalInternal` | asylo/platform/primitives/sgx/untrusted_sgx.cc:335-386 | A closed client returns FAILED_PRECONDITION, nothing reaches the gate and the heap is untouched. Otherwise there is one non-utility gate entry at index 1, and the status is `SignalStatus`. Only the input buffer is freed: the live blocks afterwards are the old ones plus the enclave's output buffer, if it left one, at the last address allocated, which was not live before. So every block that was live before keeps its bytes. |
| `UntrustedSgx.SgxEnclaveClient.Destroy` | asylo/platform/primitives/sgx/untrusted_sgx.cc:262-271 | The teardown call with the fini selector comes first, as a non-utility entry at index 0. If it fails, its error is returned and the destroy primitive is not called. If it succeeds, the destroy primitive is called once. The allocation log only grows, and the buffers of the teardown call are freed once each with the live blocks as before. The client is closed afterwards iff it was already closed or the result is OK. This is the `IsClosed()` that the test teardown checks (asylo/platform/host_call/test/host_call_test.cc:82-85). |
| `UntrustedSgx.SgxEnclaveClient.EnterAndTakeSnapshot` | asylo/platform/primitives/sgx/untrusted_sgx.cc:388-413 | One utility gate entry at index 2, whether or not the client is closed. If `OutputCallStatus` is an error, it is returned with no layout and no free, and the enclave's output buffer, if any, stays live next to the old blocks at an address that was not live before, so they keep their bytes. Otherwise the parsed embedded status is returned, the layout is handed back if requested, the output buffer is freed once and the live blocks are as before. |
| `UntrustedSgx.SgxEnclaveClient.EnterAndTransferSecureSnapshotKey` | asylo/platform/primitives/sgx/untrusted_sgx.cc:415-441 | A serialization failure returns INVALID_ARGUMENT without entering the enclave. Otherwise there is one utility gate entry at index 4 with the serialized config, whether or not the client is closed. A call error is returned with no free, and the enclave's output buffer, if any, stays live at an address that was not live before, so the old blocks keep their bytes. On success the restored inner status is returned, the output is freed once and the live blocks are as before. |
| `UntrustedSgx.TakeSnapshot` | asylo/platform/primitives/sgx/untrusted_sgx.cc:130-153 | Enters at index 2 as a utility call. Returns `OutputCallStatus` together with the output buffer and length the enclave wrote, and frees nothing. |
| `UntrustedSgx.TransferSecureSnapshotKey` | asylo/platform/primitives/sgx/untrusted_sgx.cc:96-119 | Enters at index 4 as a utility call, with the input. Returns `OutputCallStatus` together with the output buffer and length, and frees nothing. |
| `UntrustedSgx.DispatchStatus` | asylo/platform/primitives/sgx/untrusted_sgx.cc:319-332 | OK iff the gate succeeded and the return code is 0. A gate failure carries the SGX status. Any non-zero return code is one INTERNAL error. |
| `UntrustedSgx.SignalStatus` | asylo/platform/primitives/sgx/untrusted_sgx.cc:362-385 | OK iff the gate succeeded and the return code is 0. A gate failure carries the SGX status. A non-zero code is INTERNAL, with the message of its class (1, 2, -1, any other). |
| `UntrustedSgx.SignalFailuresDistinct` | asylo/platform/primitives/sgx/untrusted_sgx.cc:369-382 | Two non-zero return codes give the same status iff they fall in the same class. So unregistered, bad state, blocked and unexpected are four distinguishable outcomes. |
| `UntrustedSgx.OutputCallStatus` | asylo/platform/primitives/sgx/untrusted_sgx.cc:141-152 | OK iff the gate succeeded, the return code is 0 and the output length is non-zero. A gate failure carries the SGX status. A non-zero code or an empty output is INTERNAL "No output from enclave". |
| `UntrustedRuntime.AppendedFreesDistinct` | asylo/platform/primitives/sgx/untrusted_sgx.cc:302-309 | A valid heap never hands out the same address twice. So when a call's allocations extend the log, they are its tail, and freeing them after any earlier frees releases no block twice. The call methods use this to state that no buffer is freed twice. |
| `UntrustedSgx.MarshalInput` | asylo/platform/primitives/sgx/untrusted_sgx.cc:311-317 | A writer with a non-empty message is serialized into one fresh untrusted buffer holding exactly its bytes. An absent or empty writer leaves the input pointer null and the heap unchanged. Nothing is freed. |
| `UntrustedSgx.ReleaseCallBuffers` | asylo/platform/primitives/sgx/untrusted_sgx.cc:302-309 | The primary call's cleanup guard frees the input and output buffers that are not null. Given how the input was marshalled and the output placed, the allocation log grew by exactly the call's buffers. Afterwards the frees are exactly the call's allocations in order, none twice, and the live blocks are those the call found. |
| `UntrustedSgx.ReleaseSignalInput` | asylo/platform/primitives/sgx/untrusted_sgx.cc:347-351 | Signal delivery's cleanup guard frees only the input buffer, if any. The allocation log grew by exactly the call's buffers, the frees are the input buffer's address alone, and none is freed twice. The enclave's output buffer stays live on top of the blocks the call found, at the last address allocated, which was not among them. |
| `HostCalls.CheckOcall` | asylo/platform/arch/sgx/trusted/host_calls.cc:61-74 | Aborts iff the status is not success, reporting that status as "ocall failed". Success falls through. |
| `HostCalls.OutsideEnclaveExact` | asylo/platform/arch/sgx/trusted/host_calls.cc:90 | The interval-disjointness check holds iff the range does not wrap and no byte of it lies in the enclave. Both directions are proved. |
| `HostCalls.AllocateBuffers` | asylo/platform/arch/sgx/trusted/host_calls.cc:85-94 | Asks the host for `count` buffers of `size` bytes. Returns iff the ocall succeeded, the pointer is non-null and `size` bytes at it are outside the enclave. A returned pointer is non-null and no byte of its `size`-byte range is in the enclave. Every other answer aborts and never returns an error. |
| `HostCalls.AllocationCheckMissesArrayAndEntries` | asylo/platform/arch/sgx/trusted/host_calls.cc:90-92 | The check as written accepts an array whose `count` pointers overlap the enclave, and whose entry points into the enclave. |
| `HostCalls.AllocateBuffersChecked` | asylo/platform/arch/sgx/trusted/host_calls.cc:85-94 | The corrected check returns iff the ocall succeeded and the whole pointer array and every `size`-byte buffer it lists are outside the enclave. |
| `HostCalls.CheckedAllocationOutside` | asylo/platform/arch/sgx/trusted/host_calls.cc:85-94 | Under the corrected check, no byte of the pointer array and no byte of any listed buffer is in the enclave. |
| `HostCalls.DeallocateFreeList` | asylo/platform/arch/sgx/trusted/host_calls.cc:96-99 | Asks the host to free the `count` buffers listed at the given address. Aborts iff the ocall failed; otherwise returns. |
| `HostCalls.InotifyRead` | asylo/platform/arch/sgx/trusted/host_calls.cc:105-111 | Asks the host to read up to `count` bytes of events from the descriptor, passing on the caller's two out-pointers for the serialized events and their length. Aborts iff the ocall failed. Otherwise returns exactly the value the ocall wrote, or 0 if it wrote none. |

## Left out

- Message writer and reader format: a writer is the bytes it serializes to, a
  reader records the buffer and length it was given. The serialization format
  lives in `primitives/util/message.h`, which is not part of this model, so
  the round-trip law is not stated.
- SGX SDK and operating-system calls are oracle parameters: `sgx_create_enclave_ex`,
  `sgx_create_enclave_from_buffer_ex`, `sgx_ecall`, `sgx_destroy_enclave`,
  `sgx_enclave_size`, `mmap`, `munmap`, and the `/proc/self/exe` mapping with
  its ELF section lookup. The three lookup steps are one `SectionLookup`
  outcome, because each of them propagates its own error unchanged.
- `sgx_is_outside_enclave` is part of the SGX SDK, which is not part of this
  model. It is modelled as interval disjointness. An empty range is examined
  at its first byte, and a range that wraps around the address space is never
  outside.
- Numeric values of `sgx_status_t` (`sgx_error.h`) and of `kSelectorAsyloFini`
  (`primitives.h`) are not part of this model. Statuses are distinguished by
  constructor, and the fini selector is an unspecified constant.
- Protobuf handling (`ParseFromArray`, `GetExtension`, `Status::RestoreFrom`,
  `SerializeToString`): parsing is a function parameter over the output bytes
  and length, and serialization success is an `Option` input.
- `Client::EnclaveCall` (untrusted_primitives.cc) is not part of this model;
  `Destroy` calls `EnclaveCallInternal` directly.
- The client constructor and header are not part of this model: a client starts
  closed until a load succeeds. The exit-call provider it stores, the launch
  token, and the creation feature array are not modelled.
- The base address is passed to creation through a pointer into the client.
  The model keeps the base address the caller gave and does not model a
  write-back by the SDK.
- Accessors `GetEnclaveId`, `GetEnclaveSize`, `GetBaseAddress` (the fields
  themselves), and the one-line SDK pass-throughs `GetLaunchToken`,
  `IsTcsActive` and `SetProcessId`.
- `malloc` never fails in the model; the source does not check its result.
- Logging (`LOG_IF` warnings) and the text of the `CHECK_OCALL` diagnostic are
  not modelled. The diagnostic is the reported `Status`; file and line are
  dropped.
- The syslog and openlog forwarders: they depend on `ToBridgeSysLog*`
  conversions that are not part of this model, and the ocalls are foreign.
- Concurrency (several threads entering through different TCS slots) and
  changes to host memory after it has been checked are out of scope. The
  client is single-threaded.
- UntrustedSgx.SgxEnclaveClient.EnterAndTakeSnapshot: a null output pointer with a non-zero
  length is undefined behaviour in the source; the model parses it as empty
  bytes.
- UntrustedSgx.SgxEnclaveClient.EnclaveCallInternal: a null reader together with an output
  buffer is undefined behaviour in the source; the model always has a reader.

## Findings

| source | as written | input that shows it | evidently intended | confidence | as-written member | corrected member |
|---|---|---|---|---|---|---|
| asylo/platform/arch/sgx/trusted/host_calls.cc:90 | `sgx_is_outside_enclave(buffers, size)` checks `size` bytes of the returned array of `count` pointers, and never checks the `count` buffers the array lists | enclave `[0x10000, 0x20000)`, `count = 2`, `size = 8`, array at `0xFFF8` holding `0x10000`: the check passes, but the array's 16 bytes reach into the enclave and its entry points at the enclave's first byte | the whole array (`count * sizeof(void *)` bytes) and every listed `size`-byte buffer lie outside the enclave | medium; not executed | `HostCalls.AllocateBuffers` with `HostCalls.AllocationCheckMissesArrayAndEntries` | `HostCalls.AllocateBuffersChecked` with `HostCalls.CheckedAllocationOutside` |
