/** The untrusted half of the SGX enclave call bridge: loading an enclave
    (with bounded retries), the four gate entry points with their status
    mapping and buffer discipline, and teardown. */
module UntrustedSgx {
  import opened Errors
  import opened UntrustedRuntime

  /** Enclave creation is attempted at most this many times. */
  const MaxEnclaveCreateAttempts: nat := 5

  /** Call indices of the bridge's ecall table. */
  const DispatchIndex: nat := 0
  const DeliverSignalIndex: nat := 1
  const TakeSnapshotIndex: nat := 2
  const TransferSecureSnapshotKeyIndex: nat := 4

  /** The reserved selector of the trusted teardown call. Its value is
      fixed in primitives.h, which is not part of this model. */
  const SelectorAsyloFini: UInt64

  const ClosedEnclaveError: Status :=
    Error(GoogleSpace(FailedPrecondition), "Cannot make an enclave call to a closed enclave.")
  const NoOutputError: Status := Error(GoogleSpace(Internal), "No output from enclave")
  const CreateFailedMessage: string := "Failed to create an enclave"
  const DispatchFailedMessage: string := "Call to primitives ecall endpoint failed"
  const DispatchInternalMessage: string := "Enclave call failed inside enclave"
  const SignalGateFailedMessage: string := "Call to primitives deliver signal endpoint failed"
  const SnapshotGateFailedMessage: string := "Call to ecall_take_snapshot failed"
  const HandshakeGateFailedMessage: string := "Call to ecall_do_handshake failed"
  const DestroyFailedMessage: string := "Failed to destroy enclave"
  const ReserveFailedError: Status := Error(GoogleSpace(Internal), "Failed to reserve enclave memory")
  const ReleaseFailedError: Status := Error(GoogleSpace(Internal), "Failed to release enclave memory")
  const SerializeFailedError: Status :=
    Error(GoogleSpace(InvalidArgument), "Failed to serialize ForkHandshakeConfig")

  /** A `MessageWriter`, represented by the bytes it serializes to. */
  datatype MessageWriter = MessageWriter(serialized: Bytes)
  {
    function MessageSize(): nat { |serialized| }
  }

  /** A `MessageReader`: `received` is the buffer and length it last
      deserialized, if any. */
  class MessageReader {
    var received: Option<(Bytes, nat)>

    constructor ()
      ensures received == None
    {
      received := None;
    }

    method Deserialize(data: Bytes, size: nat)
      modifies this
      ensures received == Some((data, size))
    {
      received := Some((data, size));
    }
  }

  /** The bytes the enclave sees as input when the caller passes `input`. */
  function InputBytes(input: Option<MessageWriter>): Bytes
  {
    if input.Some? then input.value.serialized else []
  }

  /** How many input buffers a call allocates: one exactly when there is a
      writer with a non-empty message. */
  function InputBuffers(input: Option<MessageWriter>): nat
  {
    if input.Some? && input.value.MessageSize() > 0 then 1 else 0
  }

  /** How many output buffers the enclave leaves in untrusted memory. */
  function OutputBuffers(reply: EcallReply): nat
  {
    if reply.output.Some? then 1 else 0
  }

  /** The bytes of the output buffer, or nothing when the pointer is null. */
  function OutputBytes(reply: EcallReply): Bytes
  {
    if reply.output.Some? then reply.output.value else []
  }

  /** The input half of a call: a writer with a non-empty message is
      serialized into a fresh untrusted buffer; otherwise the input pointer
      stays null. `inputBytes` is what the enclave will be handed. */
  method MarshalInput(heap: UntrustedHeap, input: Option<MessageWriter>) returns (inputPtr: nat, inputBytes: Bytes)
    requires heap.Valid()
    modifies heap
    ensures heap.Valid()
    ensures inputBytes == InputBytes(input)
    ensures Placed(heap, old(heap.blocks), old(heap.allocs), inputPtr,
                   if InputBuffers(input) == 1 then Some(inputBytes) else None)
    ensures heap.frees == old(heap.frees)
  {
    inputPtr, inputBytes := 0, InputBytes(input);
    if input.Some? && input.value.MessageSize() > 0 {
      inputPtr := heap.Malloc(input.value.MessageSize());
      heap.Write(inputPtr, input.value.serialized);
    }
  }

  /** The cleanup guard of a primary call: frees the input buffer and then
      the output buffer, each only when it is not null. `blocks0`, `allocs0`
      and `frees0` are the heap as the call found it; since then the input
      of `input` was marshalled at `inputPtr` (reaching `blocks1` and
      `allocs1`) and the enclave's answer `reply` placed its output at
      `outputPtr`. Afterwards every buffer the call allocated has been
      freed once, in allocation order, and the live blocks are those the
      call found. */
  method ReleaseCallBuffers(heap: UntrustedHeap, inputPtr: nat, outputPtr: nat,
                            ghost input: Option<MessageWriter>, ghost reply: EcallReply,
                            ghost blocks0: map<nat, Bytes>, ghost allocs0: seq<nat>, ghost frees0: seq<nat>,
                            ghost blocks1: map<nat, Bytes>, ghost allocs1: seq<nat>)
    requires heap.Valid() && 0 !in blocks0
    requires PlacedIn(blocks1, allocs1, blocks0, allocs0, inputPtr,
                      if InputBuffers(input) == 1 then Some(InputBytes(input)) else None)
    requires Placed(heap, blocks1, allocs1, outputPtr, reply.output)
    requires heap.frees == frees0
    modifies heap`blocks, heap`frees
    ensures heap.Valid()
    ensures |heap.allocs| == |allocs0| + InputBuffers(input) + OutputBuffers(reply)
    ensures allocs0 <= heap.allocs
    ensures heap.frees == frees0 + heap.allocs[|allocs0|..]
    ensures NoRepeats(heap.frees, |frees0|)
    ensures heap.blocks == blocks0
  {
    PlacedTwice(blocks0, allocs0, blocks1, allocs1, heap.blocks, heap.allocs,
                inputPtr, if InputBuffers(input) == 1 then Some(InputBytes(input)) else None,
                outputPtr, reply.output);
    AppendedFreesDistinct(heap, allocs0, frees0, NonNull(inputPtr, outputPtr));
    assert inputPtr != 0 && outputPtr != 0 ==> heap.allocs[|allocs0|] < heap.allocs[|allocs0| + 1];
    ghost var live := heap.blocks;
    // `Free(0)` does nothing, as `free(NULL)` does, so the guard's two
    // null tests need no branch here.
    heap.Free(inputPtr);
    heap.Free(outputPtr);
    RemoveBoth(live, inputPtr, outputPtr);
  }

  /** The cleanup guard of signal delivery: frees the input buffer, when it
      is not null, and nothing else. `blocks0`, `allocs0` and `frees0` are
      the heap as the call found it; since then the input of `input` was
      marshalled at `inputPtr` (reaching `blocks1` and `allocs1`) and the
      enclave's answer `reply` placed its output at `outputPtr`. */
  method ReleaseSignalInput(heap: UntrustedHeap, inputPtr: nat, outputPtr: nat,
                            ghost input: Option<MessageWriter>, ghost reply: EcallReply,
                            ghost blocks0: map<nat, Bytes>, ghost allocs0: seq<nat>, ghost frees0: seq<nat>,
                            ghost blocks1: map<nat, Bytes>, ghost allocs1: seq<nat>)
    requires heap.Valid() && 0 !in blocks0
    requires PlacedIn(blocks1, allocs1, blocks0, allocs0, inputPtr,
                      if InputBuffers(input) == 1 then Some(InputBytes(input)) else None)
    requires Placed(heap, blocks1, allocs1, outputPtr, reply.output)
    requires heap.frees == frees0
    modifies heap`blocks, heap`frees
    ensures heap.Valid()
    ensures |heap.allocs| == |allocs0| + InputBuffers(input) + OutputBuffers(reply)
    ensures allocs0 <= heap.allocs
    ensures heap.frees == frees0 + heap.allocs[|allocs0|..|allocs0| + InputBuffers(input)]
    ensures NoRepeats(heap.frees, |frees0|)
    ensures heap.blocks == if reply.output.Some? then blocks0[heap.allocs[|heap.allocs| - 1] := reply.output.value]
                           else blocks0
    ensures reply.output.Some? ==> heap.allocs[|heap.allocs| - 1] !in blocks0
  {
    PlacedTwice(blocks0, allocs0, blocks1, allocs1, heap.blocks, heap.allocs,
                inputPtr, if InputBuffers(input) == 1 then Some(InputBytes(input)) else None,
                outputPtr, reply.output);
    AppendedFreesDistinct(heap, allocs0, frees0, NonNull(inputPtr, outputPtr));
    if inputPtr != 0 {
      heap.Free(inputPtr);
    }
  }

  // ---------------------------------------------------------------------
  // Status mapping of the four entry points
  // ---------------------------------------------------------------------

  /** The status of a primary dispatch call: a gate failure is reported in
      the SGX error space, a non-zero in-enclave return code is flattened to
      one INTERNAL error, and only a clean return is OK. */
  function DispatchStatus(gate: SgxStatus, retval: Int32): (s: Status)
    ensures s.OkStatus? <==> gate == SgxSuccess && retval == 0
    ensures gate != SgxSuccess ==> s == Error(SgxSpace(gate), DispatchFailedMessage)
    ensures gate == SgxSuccess && retval != 0 ==> s == Error(GoogleSpace(Internal), DispatchInternalMessage)
  {
    if gate != SgxSuccess then Error(SgxSpace(gate), DispatchFailedMessage)
    else if retval != 0 then Error(GoogleSpace(Internal), DispatchInternalMessage)
    else OkStatus
  }

  /** The four ways signal delivery can fail inside the enclave. */
  datatype SignalFailure = Unregistered | BadState | Blocked | Unexpected

  function SignalFailureOf(retval: Int32): SignalFailure
  {
    if retval == 1 then Unregistered
    else if retval == 2 then BadState
    else if retval == -1 then Blocked
    else Unexpected
  }

  function SignalMessage(kind: SignalFailure): string
  {
    match kind
    case Unregistered => "Invalid or unregistered incoming signal"
    case BadState => "Enclave unable to handle signal in current state"
    case Blocked => "Incoming signal is blocked inside the enclave"
    case Unexpected => "Unexpected error while handling signal"
  }

  /** The status of a signal delivery call. */
  function SignalStatus(gate: SgxStatus, retval: Int32): (s: Status)
    ensures s.OkStatus? <==> gate == SgxSuccess && retval == 0
    ensures gate != SgxSuccess ==> s == Error(SgxSpace(gate), SignalGateFailedMessage)
    ensures gate == SgxSuccess && retval != 0 ==>
              s == Error(GoogleSpace(Internal), SignalMessage(SignalFailureOf(retval)))
  {
    if gate != SgxSuccess then Error(SgxSpace(gate), SignalGateFailedMessage)
    else if retval != 0 then Error(GoogleSpace(Internal), SignalMessage(SignalFailureOf(retval)))
    else OkStatus
  }

  /** The status of the snapshot and key-transfer calls: besides a gate
      failure, a non-zero return code and an empty output are both errors,
      because a call that returns no content failed to carry its error
      across the boundary. */
  function OutputCallStatus(gate: SgxStatus, retval: Int32, outputLen: nat, gateMessage: string): (s: Status)
    ensures s.OkStatus? <==> gate == SgxSuccess && retval == 0 && outputLen != 0
    ensures gate != SgxSuccess ==> s == Error(SgxSpace(gate), gateMessage)
    ensures gate == SgxSuccess && (retval != 0 || outputLen == 0) ==> s == NoOutputError
  {
    if gate != SgxSuccess then Error(SgxSpace(gate), gateMessage)
    else if retval != 0 || outputLen == 0 then NoOutputError
    else OkStatus
  }

  /** The four in-enclave signal failures give four different statuses,
      so a caller can tell "blocked, try later" from "never deliverable". */
  lemma SignalFailuresDistinct(a: Int32, b: Int32)
    requires a != 0 && b != 0
    ensures SignalStatus(SgxSuccess, a) == SignalStatus(SgxSuccess, b) <==> SignalFailureOf(a) == SignalFailureOf(b)
  {
  }

  // ---------------------------------------------------------------------
  // Retrying enclave creation
  // ---------------------------------------------------------------------

  /** The number of creation attempts made from attempt `from` on, when
      attempt `i` is answered by `answers(i)`: attempts continue only while
      the answer is "creation interrupted", and never beyond the bound. */
  function RetryAttempts(answers: nat -> CreateReply, from: nat): (n: nat)
    requires from < MaxEnclaveCreateAttempts
    decreases MaxEnclaveCreateAttempts - from
    ensures from < n <= MaxEnclaveCreateAttempts
    ensures forall j :: from <= j < n - 1 ==> answers(j).status == EnclaveCreateInterrupted
    ensures n < MaxEnclaveCreateAttempts ==> answers(n - 1).status != EnclaveCreateInterrupted
  {
    if answers(from).status != EnclaveCreateInterrupted || from + 1 == MaxEnclaveCreateAttempts then from + 1
    else RetryAttempts(answers, from + 1)
  }

  /** The answer to the last creation attempt of a load. */
  function FinalAttempt(answers: nat -> CreateReply): CreateReply
  {
    answers(RetryAttempts(answers, 0) - 1)
  }

  /** The first answer other than "interrupted" ends the retries: if it
      comes at attempt `k`, exactly `k + 1` attempts are made. */
  lemma RetriesStopAtFirstOtherStatus(answers: nat -> CreateReply, k: nat)
    requires k < MaxEnclaveCreateAttempts
    requires answers(k).status != EnclaveCreateInterrupted
    requires forall j :: 0 <= j < k ==> answers(j).status == EnclaveCreateInterrupted
    ensures RetryAttempts(answers, 0) == k + 1
    ensures FinalAttempt(answers) == answers(k)
  {
  }

  /** A primitive that is always interrupted is tried exactly five times,
      and the load reports "interrupted". */
  lemma AlwaysInterruptedGivesUp(answers: nat -> CreateReply)
    requires forall j :: 0 <= j < MaxEnclaveCreateAttempts ==> answers(j).status == EnclaveCreateInterrupted
    ensures RetryAttempts(answers, 0) == MaxEnclaveCreateAttempts
    ensures FinalAttempt(answers).status == EnclaveCreateInterrupted
  {
  }

  /** Outcome of the three steps that locate the embedded enclave image in
      the calling process's own binary: the section's bytes, or the error of
      the first step that failed. */
  datatype SectionLookup = SectionFound(image: Bytes) | LookupFailed(space: ErrorSpace, message: string)

  /** What a trusted snapshot call hands back once parsed: the embedded
      status and the snapshot layout extension (in serialized form). */
  datatype EnclaveOutput = EnclaveOutput(status: Status, snapshot: Bytes)

  // ---------------------------------------------------------------------
  // The client
  // ---------------------------------------------------------------------

  /** `SgxEnclaveClient`: one enclave's handle and lifecycle state. */
  class SgxEnclaveClient {
    const name: string
    var id: EnclaveId
    var size: nat
    var baseAddress: Address
    var isDestroyed: bool

    constructor (name: string)
      ensures this.name == name && id == 0 && size == 0 && baseAddress == 0 && isDestroyed
    {
      this.name := name;
      id, size, baseAddress := 0, 0, 0;
      isDestroyed := true;
    }

    predicate IsClosed()
      reads this
    {
      isDestroyed
    }

    /** The creation loop shared by both loaders: attempts creation with
        `request` until an answer other than "interrupted", or the bound. */
    method RetryCreate(rt: SgxRuntime, request: CreateRequest, answers: nat -> CreateReply)
      returns (status: SgxStatus)
      modifies rt`creates, this`id
      ensures var n := RetryAttempts(answers, 0);
              rt.creates == old(rt.creates) + seq(n, _ => request)
      ensures status == FinalAttempt(answers).status && id == FinalAttempt(answers).eid
    {
      var i := 0;
      status := SgxSuccess;
      while i < MaxEnclaveCreateAttempts
        invariant 0 <= i <= MaxEnclaveCreateAttempts
        invariant forall j :: 0 <= j < i ==> answers(j).status == EnclaveCreateInterrupted
        invariant rt.creates == old(rt.creates) + seq(i, _ => request)
        invariant 0 < i ==> status == answers(i - 1).status && id == answers(i - 1).eid
      {
        var eid;
        status, eid := rt.CreateEnclave(request, answers(i));
        id := eid;
        assert seq(i, _ => request) + [request] == seq(i + 1, _ => request);
        if status != EnclaveCreateInterrupted {
          RetriesStopAtFirstOtherStatus(answers, i);
          return;
        }
        i := i + 1;
      }
      AlwaysInterruptedGivesUp(answers);
    }

    /** `SgxBackend::Load`: creates the enclave from the file at `path`.
        `reportedSize` is what the platform reports as the enclave's size. */
    static method Load(rt: SgxRuntime, name: string, baseAddress: Address, path: string, enclaveSize: nat,
                       enableFork: bool, debug: bool, answers: nat -> CreateReply, reportedSize: nat)
      returns (r: LoadResult)
      modifies rt`creates
      ensures var request := CreateRequest(ImageFile(path), debug, baseAddress, enclaveSize, enableFork);
              rt.creates == old(rt.creates) + seq(RetryAttempts(answers, 0), _ => request)
      ensures r.LoadFailed? <==> FinalAttempt(answers).status != SgxSuccess
      ensures r.LoadFailed? ==> r.status == Error(SgxSpace(FinalAttempt(answers).status), CreateFailedMessage)
      ensures r.Loaded? ==> fresh(r.client) && !r.client.IsClosed() && r.client.name == name
                            && r.client.id == FinalAttempt(answers).eid && r.client.size == reportedSize
                            && r.client.baseAddress == baseAddress
    {
      var client := new SgxEnclaveClient(name);
      client.baseAddress := baseAddress;
      var request := CreateRequest(ImageFile(path), debug, baseAddress, enclaveSize, enableFork);
      var status := client.RetryCreate(rt, request, answers);
      if status != SgxSuccess {
        return LoadFailed(Error(SgxSpace(status), CreateFailedMessage));
      }
      client.size := reportedSize;
      client.isDestroyed := false;
      r := Loaded(client);
    }

    /** `SgxEmbeddedBackend::Load`: creates the enclave from section
        `sectionName` of the calling binary. When a base address and a
        non-zero size are given, the range is reserved first and released
        just before creation. `mmapAnswer`, `section` and `munmapAnswer` are
        what the operating system answers. */
    static method LoadEmbedded(rt: SgxRuntime, name: string, baseAddress: Address, sectionName: string,
                               enclaveSize: nat, enableFork: bool, debug: bool,
                               mmapAnswer: Address, section: SectionLookup, munmapAnswer: int,
                               answers: nat -> CreateReply, reportedSize: nat)
      returns (r: LoadResult)
      modifies rt`creates, rt`mappings
      ensures var reserve := baseAddress != 0 && enclaveSize > 0;
              var reserved := if reserve then [Reserve(baseAddress, enclaveSize)] else [];
              if reserve && mmapAnswer != baseAddress then
                r == LoadFailed(ReserveFailedError) && rt.creates == old(rt.creates)
                && rt.mappings == old(rt.mappings) + reserved
              else if section.LookupFailed? then
                r == LoadFailed(Error(section.space, section.message)) && rt.creates == old(rt.creates)
                && rt.mappings == old(rt.mappings) + reserved
              else if reserve && munmapAnswer < 0 then
                r == LoadFailed(ReleaseFailedError) && rt.creates == old(rt.creates)
                && rt.mappings == old(rt.mappings) + reserved + [Release(baseAddress, enclaveSize)]
              else
                var request := CreateRequest(ImageBuffer(section.image), debug, baseAddress, enclaveSize, enableFork);
                && rt.creates == old(rt.creates) + seq(RetryAttempts(answers, 0), _ => request)
                && rt.mappings == old(rt.mappings) + reserved
                     + (if reserve then [Release(baseAddress, enclaveSize)] else [])
                && (r.LoadFailed? <==> FinalAttempt(answers).status != SgxSuccess)
                && (r.LoadFailed? ==> r.status == Error(SgxSpace(FinalAttempt(answers).status), CreateFailedMessage))
      ensures r.Loaded? ==> fresh(r.client) && !r.client.IsClosed() && r.client.name == name
                            && r.client.id == FinalAttempt(answers).eid && r.client.size == reportedSize
                            && r.client.baseAddress == baseAddress
    {
      var client := new SgxEnclaveClient(name);
      client.baseAddress := baseAddress;
      var reserve := baseAddress != 0 && enclaveSize > 0;
      if reserve {
        var mapped := rt.Mmap(baseAddress, enclaveSize, mmapAnswer);
        if mapped != baseAddress {
          return LoadFailed(ReserveFailedError);
        }
      }
      if section.LookupFailed? {
        return LoadFailed(Error(section.space, section.message));
      }
      if reserve {
        var released := rt.Munmap(baseAddress, enclaveSize, munmapAnswer);
        if released < 0 {
          return LoadFailed(ReleaseFailedError);
        }
      }
      var request := CreateRequest(ImageBuffer(section.image), debug, baseAddress, enclaveSize, enableFork);
      var status := client.RetryCreate(rt, request, answers);
      client.size := reportedSize;
      if status != SgxSuccess {
        return LoadFailed(Error(SgxSpace(status), CreateFailedMessage));
      }
      client.isDestroyed := false;
      r := Loaded(client);
    }

    /** `EnclaveCallInternal`: the primary dispatch through call index 0.
        On a closed client nothing reaches the gate and nothing is
        allocated. Otherwise every buffer allocated during the call, the
        input buffer and the enclave's output buffer alike, is freed
        exactly once, and the reader is filled only on full success. */
    method EnclaveCallInternal(rt: SgxRuntime, heap: UntrustedHeap, selector: UInt64,
                               input: Option<MessageWriter>, output: MessageReader, reply: EcallReply)
      returns (s: Status)
      requires heap.Valid()
      modifies rt`entries, heap, output
      ensures heap.Valid()
      ensures isDestroyed ==>
                s == ClosedEnclaveError && rt.entries == old(rt.entries) && unchanged(heap) && unchanged(output)
      ensures !isDestroyed ==>
                && rt.entries == old(rt.entries) + [GateEntry(id, DispatchIndex, Some(selector), InputBytes(input), false)]
                && s == DispatchStatus(reply.status, reply.retval)
                && |heap.allocs| == |old(heap.allocs)| + InputBuffers(input) + OutputBuffers(reply)
      ensures output.received ==
                if !isDestroyed && s.OkStatus? && reply.output.Some?
                then Some((reply.output.value, reply.outputLen)) else old(output.received)
      ensures old(heap.allocs) <= heap.allocs
      ensures heap.frees == old(heap.frees) + heap.allocs[|old(heap.allocs)|..]
      ensures NoRepeats(heap.frees, |old(heap.frees)|)
      ensures heap.blocks == old(heap.blocks)
    {
      if isDestroyed {
        return ClosedEnclaveError;
      }
      assert 0 !in heap.blocks;
      var inputPtr, inputBytes := MarshalInput(heap, input);
      ghost var blocks1, allocs1 := heap.blocks, heap.allocs;
      var status, retval, outputPtr, outputLen :=
        rt.Ecall(heap, id, DispatchIndex, Some(selector), inputBytes, false, reply);
      s := DispatchStatus(status, retval);
      if s.OkStatus? && outputPtr != 0 {
        output.Deserialize(heap.blocks[outputPtr], outputLen);
      }
      // The cleanup guard runs on every exit path.
      ReleaseCallBuffers(heap, inputPtr, outputPtr, input, reply,
                         old(heap.blocks), old(heap.allocs), old(heap.frees), blocks1, allocs1);
    }

    /** `DeliverSignalInternal`: signal redelivery through call index 1.
        Only the input buffer is freed; the reader is never touched. */
    method DeliverSignalInternal(rt: SgxRuntime, heap: UntrustedHeap, input: Option<MessageWriter>,
                                 output: MessageReader, reply: EcallReply)
      returns (s: Status)
      requires heap.Valid()
      modifies rt`entries, heap
      ensures heap.Valid()
      ensures isDestroyed ==> s == ClosedEnclaveError && rt.entries == old(rt.entries) && unchanged(heap)
      ensures !isDestroyed ==>
                && rt.entries == old(rt.entries) + [GateEntry(id, DeliverSignalIndex, None, InputBytes(input), false)]
                && s == SignalStatus(reply.status, reply.retval)
                && |heap.allocs| == |old(heap.allocs)| + InputBuffers(input) + OutputBuffers(reply)
                && old(heap.allocs) <= heap.allocs
                && heap.frees == old(heap.frees)
                                 + heap.allocs[|old(heap.allocs)|..|old(heap.allocs)| + InputBuffers(input)]
                && heap.blocks == (if reply.output.Some?
                                   then old(heap.blocks)[heap.allocs[|heap.allocs| - 1] := reply.output.value]
                                   else old(heap.blocks))
                && (reply.output.Some? ==> heap.allocs[|heap.allocs| - 1] !in old(heap.blocks))
      ensures NoRepeats(heap.frees, |old(heap.frees)|)
    {
      if isDestroyed {
        return ClosedEnclaveError;
      }
      assert 0 !in heap.blocks;
      var inputPtr, inputBytes := MarshalInput(heap, input);
      ghost var blocks1, allocs1 := heap.blocks, heap.allocs;
      var status, retval, outputPtr, outputLen :=
        rt.Ecall(heap, id, DeliverSignalIndex, None, inputBytes, false, reply);
      // The cleanup guard runs on every exit path; choosing the status
      // touches no memory, so it may run first.
      ReleaseSignalInput(heap, inputPtr, outputPtr, input, reply,
                         old(heap.blocks), old(heap.allocs), old(heap.frees), blocks1, allocs1);
      s := SignalStatus(status, retval);
    }

    /** `Destroy`: the trusted teardown call first; the platform destroy
        primitive only if that call succeeded; closed only if both did. */
    method Destroy(rt: SgxRuntime, heap: UntrustedHeap, finiReply: EcallReply, destroyAnswer: SgxStatus)
      returns (s: Status)
      requires heap.Valid()
      modifies this`isDestroyed, rt`entries, rt`destroys, heap
      ensures heap.Valid()
      ensures old(isDestroyed) ==> rt.entries == old(rt.entries)
      ensures !old(isDestroyed) ==>
                rt.entries == old(rt.entries) + [GateEntry(id, DispatchIndex, Some(SelectorAsyloFini), [], false)]
      ensures var fini := if old(isDestroyed) then ClosedEnclaveError
                          else DispatchStatus(finiReply.status, finiReply.retval);
              if fini != OkStatus then s == fini && rt.destroys == old(rt.destroys)
              else
                && rt.destroys == old(rt.destroys) + [id]
                && s == (if destroyAnswer == SgxSuccess then OkStatus
                         else Error(SgxSpace(destroyAnswer), DestroyFailedMessage))
      ensures IsClosed() <==> old(IsClosed()) || s.OkStatus?
      ensures old(heap.allocs) <= heap.allocs
      ensures heap.frees == old(heap.frees) + heap.allocs[|old(heap.allocs)|..]
      ensures NoRepeats(heap.frees, |old(heap.frees)|)
      ensures heap.blocks == old(heap.blocks)
    {
      var output := new MessageReader();
      var fini := EnclaveCallInternal(rt, heap, SelectorAsyloFini, None, output, finiReply);
      if fini != OkStatus {
        return fini;
      }
      var status := rt.DestroyEnclave(id, destroyAnswer);
      if status != SgxSuccess {
        return Error(SgxSpace(status), DestroyFailedMessage);
      }
      isDestroyed := true;
      s := OkStatus;
    }

    /** `EnterAndTakeSnapshot`: takes a snapshot through call index 2. On
        success the output is parsed (by `parse`), released, and the
        embedded status returned; the layout is handed back when asked for.
        On failure nothing is freed and no layout is produced. */
    method EnterAndTakeSnapshot(rt: SgxRuntime, heap: UntrustedHeap, wantLayout: bool, reply: EcallReply,
                                parse: (Bytes, nat) -> EnclaveOutput)
      returns (s: Status, layout: Option<Bytes>)
      requires heap.Valid()
      modifies rt`entries, heap
      ensures heap.Valid()
      ensures rt.entries == old(rt.entries) + [GateEntry(id, TakeSnapshotIndex, None, [], true)]
      ensures |heap.allocs| == |old(heap.allocs)| + OutputBuffers(reply)
      ensures old(heap.allocs) <= heap.allocs
      ensures reply.output.Some? ==> heap.allocs[|heap.allocs| - 1] !in old(heap.blocks)
      ensures NoRepeats(heap.frees, |old(heap.frees)|)
      ensures var gate := OutputCallStatus(reply.status, reply.retval, reply.outputLen, SnapshotGateFailedMessage);
              if gate != OkStatus then
                && s == gate && layout == None && heap.frees == old(heap.frees)
                && heap.blocks == if reply.output.Some?
                                  then old(heap.blocks)[heap.allocs[|heap.allocs| - 1] := reply.output.value]
                                  else old(heap.blocks)
              else
                var parsed := parse(OutputBytes(reply), reply.outputLen);
                && s == parsed.status
                && layout == (if wantLayout then Some(parsed.snapshot) else None)
                && heap.frees == old(heap.frees) + heap.allocs[|old(heap.allocs)|..]
                && heap.blocks == old(heap.blocks)
    {
      var output, outputLen;
      s, output, outputLen := TakeSnapshot(rt, heap, id, reply);
      if s != OkStatus {
        return s, None;
      }
      var bytes := if output != 0 then heap.blocks[output] else [];
      var parsed := parse(bytes, outputLen);
      s := parsed.status;
      heap.Free(output);
      layout := if wantLayout then Some(parsed.snapshot) else None;
    }

    /** `EnterAndTransferSecureSnapshotKey`: sends the serialized fork
        handshake configuration (`None` when serialization failed, in which
        case the enclave is not entered) through call index 4, and returns
        the status the enclave embedded in its output (decoded by
        `restore`), after releasing that output. */
    method EnterAndTransferSecureSnapshotKey(rt: SgxRuntime, heap: UntrustedHeap, config: Option<Bytes>,
                                             reply: EcallReply, restore: (Bytes, nat) -> Status)
      returns (s: Status)
      requires heap.Valid()
      modifies rt`entries, heap
      ensures heap.Valid()
      ensures config.None? ==> s == SerializeFailedError && rt.entries == old(rt.entries) && unchanged(heap)
      ensures config.Some? ==>
                && rt.entries == old(rt.entries) + [GateEntry(id, TransferSecureSnapshotKeyIndex, None, config.value, true)]
                && |heap.allocs| == |old(heap.allocs)| + OutputBuffers(reply)
                && old(heap.allocs) <= heap.allocs
                && (reply.output.Some? ==> heap.allocs[|heap.allocs| - 1] !in old(heap.blocks))
      ensures NoRepeats(heap.frees, |old(heap.frees)|)
      ensures config.Some? ==>
                var gate := OutputCallStatus(reply.status, reply.retval, reply.outputLen, HandshakeGateFailedMessage);
                if gate != OkStatus then
                  && s == gate && heap.frees == old(heap.frees)
                  && heap.blocks == if reply.output.Some?
                                    then old(heap.blocks)[heap.allocs[|heap.allocs| - 1] := reply.output.value]
                                    else old(heap.blocks)
                else
                  && s == restore(OutputBytes(reply), reply.outputLen)
                  && heap.frees == old(heap.frees) + heap.allocs[|old(heap.allocs)|..]
                  && heap.blocks == old(heap.blocks)
    {
      if config.None? {
        return SerializeFailedError;
      }
      var output, outputLen;
      s, output, outputLen := TransferSecureSnapshotKey(rt, heap, id, config.value, reply);
      if s != OkStatus {
        return s;
      }
      var bytes := if output != 0 then heap.blocks[output] else [];
      s := restore(bytes, outputLen);
      heap.Free(output);
    }
  }

  datatype LoadResult = Loaded(client: SgxEnclaveClient) | LoadFailed(status: Status)

  /** The static helper `TakeSnapshot`: enters enclave `eid` at call index 2
      and reports the output buffer and length the enclave wrote. */
  method TakeSnapshot(rt: SgxRuntime, heap: UntrustedHeap, eid: EnclaveId, reply: EcallReply)
    returns (s: Status, output: nat, outputLen: nat)
    requires heap.Valid()
    modifies rt`entries, heap
    ensures heap.Valid()
    ensures rt.entries == old(rt.entries) + [GateEntry(eid, TakeSnapshotIndex, None, [], true)]
    ensures s == OutputCallStatus(reply.status, reply.retval, reply.outputLen, SnapshotGateFailedMessage)
    ensures outputLen == reply.outputLen
    ensures Placed(heap, old(heap.blocks), old(heap.allocs), output, reply.output)
    ensures heap.frees == old(heap.frees)
  {
    var status, retval;
    status, retval, output, outputLen := rt.Ecall(heap, eid, TakeSnapshotIndex, None, [], true, reply);
    s := OutputCallStatus(status, retval, outputLen, SnapshotGateFailedMessage);
  }

  /** The static helper `TransferSecureSnapshotKey`: enters enclave `eid`
      at call index 4 with `input` and reports the output buffer and length
      the enclave wrote. */
  method TransferSecureSnapshotKey(rt: SgxRuntime, heap: UntrustedHeap, eid: EnclaveId, input: Bytes,
                                   reply: EcallReply)
    returns (s: Status, output: nat, outputLen: nat)
    requires heap.Valid()
    modifies rt`entries, heap
    ensures heap.Valid()
    ensures rt.entries == old(rt.entries) + [GateEntry(eid, TransferSecureSnapshotKeyIndex, None, input, true)]
    ensures s == OutputCallStatus(reply.status, reply.retval, reply.outputLen, HandshakeGateFailedMessage)
    ensures outputLen == reply.outputLen
    ensures Placed(heap, old(heap.blocks), old(heap.allocs), output, reply.output)
    ensures heap.frees == old(heap.frees)
  {
    var status, retval;
    status, retval, output, outputLen := rt.Ecall(heap, eid, TransferSecureSnapshotKeyIndex, None, input, true, reply);
    s := OutputCallStatus(status, retval, outputLen, HandshakeGateFailedMessage);
  }
}
