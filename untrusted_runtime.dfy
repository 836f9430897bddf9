/** The untrusted process as the enclave client sees it: a heap that `malloc`
    and `free` work on, and the SGX untrusted runtime (enclave creation,
    the ecall gate, enclave destruction, `mmap`/`munmap`). The runtime is an
    oracle: every answer it gives is a parameter chosen by the caller, and
    every request it receives is recorded in a ghost log, so that a
    contract can say which platform calls an operation made and which it
    did not make. */
module UntrustedRuntime {
  import opened Errors

  type Bytes = seq<bv8>

  /** The untrusted heap. `blocks` maps the address of every live block to
      its contents; `allocs` and `frees` log every address handed out by an
      allocation and every address released, in order. Addresses are never
      reused, so `allocs` is strictly increasing. */
  class UntrustedHeap {
    var blocks: map<nat, Bytes>
    var next: nat
    ghost var allocs: seq<nat>
    ghost var frees: seq<nat>

    ghost predicate Valid()
      reads this
    {
      && 0 < next
      && (forall p :: p in blocks ==> 0 < p < next)
      && (forall i :: 0 <= i < |allocs| ==> 0 < allocs[i] < next)
      && (forall i, j :: 0 <= i < j < |allocs| ==> allocs[i] < allocs[j])
    }

    constructor ()
      ensures Valid() && blocks == map[] && allocs == [] && frees == []
    {
      blocks, next := map[], 1;
      allocs, frees := [], [];
    }

    /** `malloc(size)`: a block never handed out before, with unspecified contents. */
    method Malloc(size: nat) returns (p: nat)
      requires Valid()
      modifies this
      ensures Valid()
      ensures p != 0 && p !in old(blocks) && p in blocks && |blocks[p]| == size
      ensures blocks == old(blocks)[p := blocks[p]]
      ensures allocs == old(allocs) + [p] && frees == old(frees)
    {
      p := next;
      blocks := blocks[p := seq(size, _ => 0)];
      next := next + 1;
      allocs := allocs + [p];
    }

    /** Writes `data` over the whole of the live block at `p`. */
    method Write(p: nat, data: Bytes)
      requires Valid() && p in blocks && |data| == |blocks[p]|
      modifies this`blocks
      ensures Valid()
      ensures blocks == old(blocks)[p := data]
    {
      blocks := blocks[p := data];
    }

    /** `free(p)`: only a live block or null may be freed, so a second free
        of the same block cannot verify. Freeing null does nothing. */
    method Free(p: nat)
      requires Valid() && (p == 0 || p in blocks)
      modifies this`blocks, this`frees
      ensures Valid()
      ensures p != 0 ==> p in old(blocks)
      ensures blocks == old(blocks) - {p}
      ensures frees == if p == 0 then old(frees) else old(frees) + [p]
    {
      if p != 0 {
        blocks := blocks - {p};
        frees := frees + [p];
      }
    }
  }

  /** No address occurs twice in `s` from position `from` on. */
  ghost predicate NoRepeats(s: seq<nat>, from: nat)
  {
    forall i, j :: from <= i < j < |s| ==> s[i] != s[j]
  }

  /** The non-null pointers among `p` and `q`, in that order. */
  function NonNull(p: nat, q: nat): seq<nat>
  {
    (if p != 0 then [p] else []) + (if q != 0 then [q] else [])
  }

  /** When a valid heap's allocation log is `allocs0` extended by `added`,
      `added` is the tail of the log and, appended to any earlier frees,
      releases no block twice. */
  lemma AppendedFreesDistinct(heap: UntrustedHeap, allocs0: seq<nat>, frees0: seq<nat>, added: seq<nat>)
    requires heap.Valid() && heap.allocs == allocs0 + added
    ensures allocs0 <= heap.allocs && heap.allocs[|allocs0|..] == added
    ensures NoRepeats(frees0 + added, |frees0|)
  {
    assert heap.allocs[|allocs0|..] == added;
    var frees := frees0 + added;
    forall i, j | |frees0| <= i < j < |frees|
      ensures frees[i] != frees[j]
    {
      assert frees[i] == heap.allocs[|allocs0| + i - |frees0|];
      assert frees[j] == heap.allocs[|allocs0| + j - |frees0|];
    }
  }

  /** Removing two keys one after the other removes both. */
  lemma RemoveBoth(m: map<nat, Bytes>, a: nat, b: nat)
    ensures m - {a} - {b} == m - {a, b}
  {
  }

  /** `blocks` and `allocs` after a buffer holding `produced` has, or has
      not, been placed in untrusted memory on top of `before` and
      `allocsBefore`: `p` is that buffer (0 if none). */
  ghost predicate PlacedIn(blocks: map<nat, Bytes>, allocs: seq<nat>, before: map<nat, Bytes>,
                           allocsBefore: seq<nat>, p: nat, produced: Option<Bytes>)
  {
    match produced
    case None => p == 0 && blocks == before && allocs == allocsBefore
    case Some(bytes) =>
      && p != 0 && p !in before
      && blocks == before[p := bytes] && allocs == allocsBefore + [p]
  }

  /** The heap after a buffer holding `produced` has, or has not, been
      placed in it: `p` is that buffer (0 if none). */
  ghost predicate Placed(heap: UntrustedHeap, before: map<nat, Bytes>, allocsBefore: seq<nat>,
                         p: nat, produced: Option<Bytes>)
    reads heap
  {
    PlacedIn(heap.blocks, heap.allocs, before, allocsBefore, p, produced)
  }

  /** Two placements in a row add the non-null buffers `p` and `q` to the
      allocation log, in that order. Removing both gives back the blocks
      the first placement started from; removing only `p` leaves `q`
      placed on top of them. */
  lemma PlacedTwice(blocks0: map<nat, Bytes>, allocs0: seq<nat>, blocks1: map<nat, Bytes>, allocs1: seq<nat>,
                    blocks2: map<nat, Bytes>, allocs2: seq<nat>, p: nat, x: Option<Bytes>, q: nat, y: Option<Bytes>)
    requires 0 !in blocks0
    requires PlacedIn(blocks1, allocs1, blocks0, allocs0, p, x)
    requires PlacedIn(blocks2, allocs2, blocks1, allocs1, q, y)
    ensures allocs2 == allocs0 + NonNull(p, q)
    ensures blocks2 - {p, q} == blocks0
    ensures (p == 0 || p in blocks2) && (q == 0 || q in blocks2) && 0 !in blocks2
    ensures (x.Some? <==> p != 0) && (y.Some? <==> q != 0)
    ensures blocks2 - {p} == if y.Some? then blocks0[q := y.value] else blocks0
  {
  }

  /** What the enclave answers to one ecall: the gate status returned by
      `sgx_ecall`, the in-enclave return code `ms_retval`, the output buffer
      it allocated in untrusted memory (if any) and the output length it
      wrote. */
  datatype EcallReply = EcallReply(status: SgxStatus, retval: Int32, output: Option<Bytes>, outputLen: nat)

  /** One passage through the ecall gate: the enclave, the call index, the
      selector when the call carries one, the input bytes the enclave was
      handed, and the `is_utility` flag the gate was entered with. */
  datatype GateEntry = GateEntry(eid: EnclaveId, index: nat, selector: Option<UInt64>, input: Bytes, utility: bool)

  /** Where an enclave image comes from: a file path, or bytes already in memory. */
  datatype EnclaveImage = ImageFile(path: string) | ImageBuffer(image: Bytes)

  /** The arguments of one enclave-creation attempt. */
  datatype CreateRequest = CreateRequest(image: EnclaveImage, debug: bool, baseAddress: Address,
                                         enclaveSize: nat, enableFork: bool)

  /** What one creation attempt answers: its status and the enclave id it wrote. */
  datatype CreateReply = CreateReply(status: SgxStatus, eid: EnclaveId)

  /** A call to `mmap` that reserves a range, or to `munmap` that releases it. */
  datatype MapCall = Reserve(base: Address, size: nat) | Release(base: Address, size: nat)

  /** The SGX untrusted runtime and the memory-mapping calls, as an oracle
      with a log of every request it received. */
  class SgxRuntime {
    ghost var entries: seq<GateEntry>
    ghost var creates: seq<CreateRequest>
    ghost var destroys: seq<EnclaveId>
    ghost var mappings: seq<MapCall>

    constructor ()
      ensures entries == [] && creates == [] && destroys == [] && mappings == []
    {
      entries, creates, destroys, mappings := [], [], [], [];
    }

    /** `sgx_ecall`: enters enclave `eid` at call `index` with `input`,
        as a utility call when `utility` holds. The enclave answers `reply`;
        an output buffer it produces is allocated in the untrusted heap and
        returned as `output`. */
    method Ecall(heap: UntrustedHeap, eid: EnclaveId, index: nat, selector: Option<UInt64>,
                 input: Bytes, utility: bool, reply: EcallReply)
      returns (status: SgxStatus, retval: Int32, output: nat, outputLen: nat)
      requires heap.Valid()
      modifies this`entries, heap
      ensures heap.Valid()
      ensures entries == old(entries) + [GateEntry(eid, index, selector, input, utility)]
      ensures status == reply.status && retval == reply.retval && outputLen == reply.outputLen
      ensures Placed(heap, old(heap.blocks), old(heap.allocs), output, reply.output)
      ensures heap.frees == old(heap.frees)
    {
      entries := entries + [GateEntry(eid, index, selector, input, utility)];
      status, retval, outputLen := reply.status, reply.retval, reply.outputLen;
      output := 0;
      if reply.output.Some? {
        output := heap.Malloc(|reply.output.value|);
        heap.Write(output, reply.output.value);
      }
    }

    /** One enclave-creation attempt (`sgx_create_enclave_ex` or
        `sgx_create_enclave_from_buffer_ex`), answered by `reply`. */
    method CreateEnclave(request: CreateRequest, reply: CreateReply) returns (status: SgxStatus, eid: EnclaveId)
      modifies this`creates
      ensures creates == old(creates) + [request]
      ensures status == reply.status && eid == reply.eid
    {
      creates := creates + [request];
      status, eid := reply.status, reply.eid;
    }

    /** `sgx_destroy_enclave(eid)`, answered by `answer`. */
    method DestroyEnclave(eid: EnclaveId, answer: SgxStatus) returns (status: SgxStatus)
      modifies this`destroys
      ensures destroys == old(destroys) + [eid]
      ensures status == answer
    {
      destroys := destroys + [eid];
      status := answer;
    }

    /** `mmap` of an inaccessible anonymous range at `base`; `answer` is the
        address the kernel returns. */
    method Mmap(base: Address, size: nat, answer: Address) returns (mapped: Address)
      modifies this`mappings
      ensures mappings == old(mappings) + [Reserve(base, size)]
      ensures mapped == answer
    {
      mappings := mappings + [Reserve(base, size)];
      mapped := answer;
    }

    /** `munmap` of the range at `base`; `answer` is its return value. */
    method Munmap(base: Address, size: nat, answer: int) returns (result: int)
      modifies this`mappings
      ensures mappings == old(mappings) + [Release(base, size)]
      ensures result == answer
    {
      mappings := mappings + [Release(base, size)];
      result := answer;
    }
  }
}
