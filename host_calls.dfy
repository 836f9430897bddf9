/** The trusted side's host-call wrappers: any failed ocall is fatal, and a
    buffer address handed over by the host is used only once it is known to
    lie entirely outside the enclave. Enclave memory is an abstract
    interval; aborting the enclave is an `Aborted` outcome. */
module HostCalls {
  import opened Errors

  /** How a wrapper ends: the enclave aborts (after reporting a diagnostic,
      if it reports one), or the wrapper returns a value. */
  datatype Outcome<T> = Aborted(report: Option<Status>) | Returned(value: T)

  /** What a wrapper asks the host for: the ocall and its arguments. The
      out-pointers the host writes through are logged as addresses; the
      slot the wrapper receives the ocall's result in (`&buffers`, `&ret`)
      is not. */
  datatype Ocall =
    | AllocateBuffersOcall(count: nat, size: nat)
    | DeallocateFreeListOcall(freeList: Address, count: nat)
    | InotifyReadOcall(fd: Int32, count: nat, serializedEvents: Address, serializedEventsLen: Address)

  /** The enclave's own memory: the bytes `base` to `base + size - 1`. */
  datatype EnclaveRange = EnclaveRange(base: Address, size: nat)

  type Enclave = e: EnclaveRange | 0 < e.size && e.base + e.size <= AddressSpace
    witness EnclaveRange(0, 1)

  /** `sizeof(void *)` on the 64-bit targets SGX runs on. */
  const PointerSize: nat := 8

  const OcallFailedMessage: string := "ocall failed"

  predicate InEnclave(e: Enclave, a: int)
  {
    e.base <= a < e.base + e.size
  }

  /** The number of bytes examined for a range of `size` bytes: an empty
      range is examined at its first byte. */
  function Span(size: nat): nat
  {
    if size == 0 then 1 else size
  }

  /** `sgx_is_outside_enclave(p, size)`: the range does not wrap around the
      address space and does not meet the enclave's interval. */
  predicate OutsideEnclave(e: Enclave, p: Address, size: nat)
  {
    p + Span(size) <= AddressSpace && (p + Span(size) <= e.base || e.base + e.size <= p)
  }

  /** Interval disjointness is exactly "no byte of the range is in the enclave". */
  lemma {:induction false} OutsideEnclaveExact(e: Enclave, p: Address, size: nat)
    ensures OutsideEnclave(e, p, size) <==>
              p + Span(size) <= AddressSpace && forall a :: p <= a < p + Span(size) ==> !InEnclave(e, a)
  {
    if p + Span(size) <= AddressSpace && !OutsideEnclave(e, p, size) {
      var a := if p < e.base then e.base else p;
      assert p <= a < p + Span(size) && InEnclave(e, a);
    }
  }

  /** `CHECK_OCALL`: any status but success reports the failed status and
      aborts; success falls through with no effect. */
  method CheckOcall(status: SgxStatus) returns (o: Outcome<()>)
    ensures o.Returned? <==> status == SgxSuccess
    ensures o.Aborted? ==> o.report == Some(Error(SgxSpace(status), OcallFailedMessage))
  {
    if status != SgxSuccess {
      return Aborted(Some(Error(SgxSpace(status), OcallFailedMessage)));
    }
    o := Returned(());
  }

  /** When `enc_untrusted_allocate_buffers`, as written, lets the host's
      answer through: the ocall succeeded, the array pointer is not null,
      and `size` bytes at it lie outside the enclave. */
  predicate AllocationAcceptedAsWritten(e: Enclave, size: nat, ocall: SgxStatus, buffers: Address)
  {
    ocall == SgxSuccess && buffers != 0 && OutsideEnclave(e, buffers, size)
  }

  /** `enc_untrusted_allocate_buffers(count, size)` as written. The host
      answers the ocall with status `ocall` and the address `buffers` of an
      array of `count` buffer pointers. A returned pointer is never null and
      never inside the enclave for `size` bytes; every other answer aborts,
      never returns an error. */
  method AllocateBuffers(e: Enclave, count: nat, size: nat, ocall: SgxStatus, buffers: Address)
    returns (sent: Ocall, o: Outcome<Address>)
    ensures sent == AllocateBuffersOcall(count, size)
    ensures o.Returned? <==> AllocationAcceptedAsWritten(e, size, ocall, buffers)
    ensures o.Returned? ==> o.value == buffers && o.value != 0
                            && forall a :: o.value <= a < o.value + size ==> !InEnclave(e, a)
    ensures ocall != SgxSuccess ==> o == Aborted(Some(Error(SgxSpace(ocall), OcallFailedMessage)))
    ensures ocall == SgxSuccess && o.Aborted? ==> o.report == None
  {
    sent := AllocateBuffersOcall(count, size);
    var checked := CheckOcall(ocall);
    if checked.Aborted? {
      return sent, Aborted(checked.report);
    }
    if buffers == 0 || !OutsideEnclave(e, buffers, size) {
      return sent, Aborted(None);
    }
    OutsideEnclaveExact(e, buffers, size);
    o := Returned(buffers);
  }

  /** The check as written passes an answer whose pointer array overlaps
      the enclave (it examines `size` bytes, not `count` pointers) and whose
      one entry points at the enclave's first byte (entries are never
      examined). */
  lemma AllocationCheckMissesArrayAndEntries()
    ensures var e: Enclave := EnclaveRange(0x10000, 0x10000);
            var buffers, count, size, entries := 0xFFF8, 2, 8, [0x10000];
            && AllocationAcceptedAsWritten(e, size, SgxSuccess, buffers)
            && !OutsideEnclave(e, buffers, count * PointerSize)
            && !OutsideEnclave(e, entries[0], size)
  {
  }

  /** What the boundary check is meant to guarantee for the answer of
      `enc_untrusted_allocate_buffers`: the whole array of `count` pointers
      and each of the `size`-byte buffers they point at lie outside the
      enclave. */
  ghost predicate AllocationSafe(e: Enclave, count: nat, size: nat, buffers: Address, entries: seq<Address>)
  {
    && buffers != 0
    && OutsideEnclave(e, buffers, count * PointerSize)
    && |entries| == count
    && forall i :: 0 <= i < count ==> OutsideEnclave(e, entries[i], size)
  }

  /** `enc_untrusted_allocate_buffers` with the intended check: `entries`
      are the `count` pointers the host stored in the array. */
  method AllocateBuffersChecked(e: Enclave, count: nat, size: nat, ocall: SgxStatus, buffers: Address,
                                entries: seq<Address>)
    returns (sent: Ocall, o: Outcome<Address>)
    requires |entries| == count
    ensures sent == AllocateBuffersOcall(count, size)
    ensures o.Returned? <==> ocall == SgxSuccess && AllocationSafe(e, count, size, buffers, entries)
    ensures o.Returned? ==> o.value == buffers
    ensures ocall != SgxSuccess ==> o == Aborted(Some(Error(SgxSpace(ocall), OcallFailedMessage)))
  {
    sent := AllocateBuffersOcall(count, size);
    var checked := CheckOcall(ocall);
    if checked.Aborted? {
      return sent, Aborted(checked.report);
    }
    if buffers == 0 || !OutsideEnclave(e, buffers, count * PointerSize) {
      return sent, Aborted(None);
    }
    var i := 0;
    while i < count
      invariant 0 <= i <= count
      invariant forall j :: 0 <= j < i ==> OutsideEnclave(e, entries[j], size)
    {
      if !OutsideEnclave(e, entries[i], size) {
        return sent, Aborted(None);
      }
      i := i + 1;
    }
    o := Returned(buffers);
  }

  /** Every byte the trusted side reaches through an answer the corrected
      check accepts lies outside the enclave. */
  lemma CheckedAllocationOutside(e: Enclave, count: nat, size: nat, buffers: Address,
                                 entries: seq<Address>, i: nat, a: int)
    requires AllocationSafe(e, count, size, buffers, entries)
    requires i < count && entries[i] <= a < entries[i] + size
    ensures !InEnclave(e, a)
    ensures forall b :: buffers <= b < buffers + count * PointerSize ==> !InEnclave(e, b)
  {
  }

  /** `enc_untrusted_deallocate_free_list`: asks the host to free the
      `count` buffers listed at `freeList`; a failed ocall aborts. */
  method DeallocateFreeList(freeList: Address, count: nat, ocall: SgxStatus) returns (sent: Ocall, o: Outcome<()>)
    ensures sent == DeallocateFreeListOcall(freeList, count)
    ensures o.Returned? <==> ocall == SgxSuccess
    ensures o.Aborted? ==> o.report == Some(Error(SgxSpace(ocall), OcallFailedMessage))
  {
    sent := DeallocateFreeListOcall(freeList, count);
    o := CheckOcall(ocall);
  }

  /** `enc_untrusted_inotify_read`: asks the host to read up to `count`
      bytes of events from `fd`, passing on the caller's out-pointers
      `serializedEvents` and `serializedEventsLen`. The result starts at 0 and is
      overwritten only by the ocall (`written` is what the ocall stored, if
      anything); a successful ocall hands it back unchanged. */
  method InotifyRead(fd: Int32, count: nat, serializedEvents: Address, serializedEventsLen: Address,
                     ocall: SgxStatus, written: Option<Int32>)
    returns (sent: Ocall, o: Outcome<Int32>)
    ensures sent == InotifyReadOcall(fd, count, serializedEvents, serializedEventsLen)
    ensures o.Returned? <==> ocall == SgxSuccess
    ensures o.Aborted? ==> o.report == Some(Error(SgxSpace(ocall), OcallFailedMessage))
    ensures o.Returned? ==> o.value == (if written.Some? then written.value else 0)
  {
    sent := InotifyReadOcall(fd, count, serializedEvents, serializedEventsLen);
    var ret: Int32 := 0;
    if written.Some? {
      ret := written.value;
    }
    var checked := CheckOcall(ocall);
    if checked.Aborted? {
      return sent, Aborted(checked.report);
    }
    o := Returned(ret);
  }
}
