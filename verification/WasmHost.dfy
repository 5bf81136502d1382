/** The host side of one Wasm plugin: lifecycle frames and broker calls of an arbitrary guest (wasm_host.rs). */
module WasmHost {
  import opened Basics
  import Utf8
  import JsonSchema

  const HOST_PROTOCOL_VERSION: nat := 1
  const GUEST_ABI_V2: nat := 2
  const MAX_WASM_MEMORY_BYTES: nat := 2 * 1024 * 1024
  const MAX_PENDING_WASM_CANCELLATIONS: nat := 256
  const MAX_ECHO_PAYLOAD_BYTES: nat := 16 * 1024
  const MAX_GUEST_STEP_BYTES: nat := 64 * 1024
  const MAX_GUEST_BROKER_STEPS: nat := 8
  const MAX_GUEST_BROKER_RESULT_BYTES: nat := 1024 * 1024
  const MAX_GUEST_BROKER_RESUME_BYTES: nat := 1536 * 1024
  const MAX_INPUT_BYTES: nat := 0x7fff_ffff

  datatype HostState = Created | Ready | Active | Quiescing | Disposing | Disposed | Quarantined

  datatype Code =
    | UnknownInstance | VersionMismatch | PayloadTooLarge | InvalidStateTransition | Timeout | ResourceLimit
    | FuelExhausted | GuestTrap | GuestRejected | InvalidGuestOutput | Cancelled | InvalidBrokerStep
    | BrokerSequenceViolation | BrokerStepLimit | BrokerResultLimit

  /** How a guest entry can end other than by returning. */
  datatype Trap = OutOfFuel | Interrupt | AllocationTooLarge | OtherTrap | NoTrap | Panic

  datatype GuestStep =
    | BrokerRequest(call: nat, handle: string, permission: string, operation: string, argsIsObject: bool)
    | Complete(call: nat, result: JsonSchema.Payload)
    | Error(call: nat, code: string)

  /** The guest's linear memory is all the host sees of it. */
  datatype Runtime = Runtime(memory: Bytes)

  datatype BrokerCall = BrokerCall(request: Id, call: nat, steps: nat, cumulative: nat, lastStep: Bytes)

  datatype Message = Hello(version: nat) | Activate | Echo(request: Id, payload: Bytes) | Heartbeat | Cancel(request: Id) | Quiesce | Dispose

  datatype Response = IsReady | Activated | EchoResult(request: Id, payload: Bytes) | HeartbeatAck | Quiesced | IsDisposed

  function ClassifyTrap(trap: Trap, cancelled: bool): Code {
    match trap
    case OutOfFuel => FuelExhausted
    case Interrupt => if cancelled then Cancelled else Timeout
    case AllocationTooLarge => ResourceLimit
    case OtherTrap => GuestTrap
    case Panic => GuestTrap
    case NoTrap => ResourceLimit
  }

  predicate IsTerminal(step: GuestStep) { !step.BrokerRequest? }

  predicate IsTokenByte(c: char) { 'a' <= c <= 'z' || '0' <= c <= '9' || c == '.' || c == '_' || c == '-' }

  predicate IsToken(s: string) { 0 < |s| <= 128 && forall i :: 0 <= i < |s| ==> IsTokenByte(s[i]) }

  predicate IsHandle(s: string) {
    |s| == 7 + 64 && s[..7] == "handle." && forall i :: 7 <= i < |s| ==> '0' <= s[i] <= '9' || 'a' <= s[i] <= 'f'
  }

  predicate IsPermission(s: string) { s == "project.fs.read" || s == "workspace.r.inspect" || s == "network.fetch" }

  /** What a guest may say, and in how many bytes. */
  predicate ProperStep(step: GuestStep, length: nat) {
    match step
    case BrokerRequest(_, handle, permission, operation, argsIsObject) =>
      IsHandle(handle) && IsPermission(permission) && IsToken(operation) && argsIsObject && length <= MAX_GUEST_STEP_BYTES
    case Complete(_, _) => true
    case Error(_, code) => IsToken(code) && length <= MAX_GUEST_STEP_BYTES
  }

  /** The checks on a decoded step of `length` bytes; `parsed` is absent when the bytes are no step at all. */
  function DecodeGuestStep(length: nat, parsed: Option<GuestStep>, call: nat, maximum: nat): (r: Result<GuestStep, Code>)
    ensures r.Ok? <==> parsed.Some? && parsed.value.call == call && length <= maximum && ProperStep(parsed.value, length)
    ensures r.Ok? ==> parsed == Some(r.value)
  {
    if length > maximum then Err(PayloadTooLarge)
    else if parsed.None? then Err(InvalidBrokerStep)
    else if parsed.value.call != call then Err(BrokerSequenceViolation)
    else match parsed.value
      case BrokerRequest(_, handle, permission, operation, argsIsObject) =>
        if length > MAX_GUEST_STEP_BYTES then Err(PayloadTooLarge)
        else if !IsHandle(handle) || !IsPermission(permission) || !IsToken(operation) || !argsIsObject then Err(InvalidBrokerStep)
        else Ok(parsed.value)
      case Complete(_, _) => Ok(parsed.value)
      case Error(_, code) =>
        if length > MAX_GUEST_STEP_BYTES then Err(PayloadTooLarge)
        else if !IsToken(code) then Err(InvalidBrokerStep)
        else Ok(parsed.value)
  }

  function Total(results: seq<nat>): nat {
    if results == [] then 0 else Total(results[..|results|-1]) + results[|results|-1]
  }

  predicate IsDead(state: HostState) { state.Disposed? || state.Quarantined? }

  predicate Answers(message: Message, response: Option<Response>) {
    match message
    case Hello(_) => response == Some(IsReady)
    case Activate => response == Some(Activated)
    case Echo(request, _) => Echoes(response, request)
    case Heartbeat => response == Some(HeartbeatAck)
    case Cancel(_) => response == None
    case Quiesce => response == Some(Quiesced)
    case Dispose => response == Some(IsDisposed)
  }

  /** A bounded answer to this very request. */
  predicate Echoes(response: Option<Response>, request: Id) {
    && response.Some? && response.value.EchoResult? && response.value.request == request
    && |response.value.payload| <= MAX_ECHO_PAYLOAD_BYTES
  }

  /** Each message that succeeds leads to its own state; the others keep the state or end the host. */
  predicate Advances(from: HostState, message: Message, ok: bool, to: HostState) {
    to == Quarantined || to == (
      if ok && message.Hello? then Ready
      else if ok && message.Activate? then Active
      else if ok && message.Quiesce? then Quiescing
      else if ok && message.Dispose? then Disposed
      else from)
  }

  /** The lifecycle only advances, to where the message leads, and a success has the answer of its message. */
  predicate Handles(from: HostState, message: Message, r: Result<Option<Response>, Code>, to: HostState) {
    && Stage(from) <= Stage(to) && Advances(from, message, r.Ok?, to)
    && (r.Ok? ==> Answers(message, r.value))
  }

  /** How far a host has got; a dead host is last. */
  function Stage(state: HostState): nat {
    match state
    case Created => 0
    case Ready => 1
    case Active => 2
    case Quiescing => 3
    case Disposing => 4
    case Disposed => 5
    case Quarantined => 6
  }

  /** Why an Active host begins no call. */
  function BeginRefusal(broker: Option<BrokerCall>, pending: set<Id>, request: Id, length: nat, maximum: nat): Option<Code> {
    if broker.Some? then Some(BrokerSequenceViolation)
    else if request in pending then Some(Cancelled)
    else if length > maximum then Some(PayloadTooLarge)
    else None
  }

  /** Why a resume never reaches the guest: no such call, or one of its budgets is spent. */
  function ResumeRefusal(broker: Option<BrokerCall>, request: Id, length: nat, rawBytes: nat): Option<Code> {
    if broker.None? || broker.value.request != request then Some(BrokerSequenceViolation)
    else if broker.value.steps >= MAX_GUEST_BROKER_STEPS then Some(BrokerStepLimit)
    else if broker.value.cumulative + rawBytes > MAX_GUEST_BROKER_RESULT_BYTES || length > MAX_GUEST_BROKER_RESUME_BYTES
    then Some(BrokerResultLimit)
    else None
  }

  class WasmPluginHost {
    const identity: InstanceIdentity
    const abi: nat
    const parse: Bytes -> Option<GuestStep>   // the decoding of a step from JSON text
    var runtime: Option<Runtime>
    var state: HostState
    var negotiated: Option<nat>
    var broker: Option<BrokerCall>
    var active: Option<Id>      // the request the cancellation record names
    var pending: set<Id>        // requests cancelled before dispatch
    var cancelled: bool
    /** Guest entries so far. */
    ghost var entries: nat
    /** For every top-level call, the raw result bytes handed over at each entry through begin or resume. */
    ghost var calls: seq<seq<nat>>

    /** What holds inside an operation too. */
    ghost predicate Core()
      reads this
    {
      && (runtime.None? <==> IsDead(state))
      && (IsDead(state) ==> broker.None? && active.None? && pending == {})
      && (runtime.Some? ==> |runtime.value.memory| <= MAX_WASM_MEMORY_BYTES)
      && (!IsDead(state) && state != Created ==> negotiated == Some(HOST_PROTOCOL_VERSION))
      && (cancelled ==> active.Some?)
      && |pending| <= MAX_PENDING_WASM_CANCELLATIONS
      && (broker.Some? ==> abi == GUEST_ABI_V2 && Stage(state) >= Stage(Active) && active == Some(broker.value.request))
      && (broker.Some? ==> Accounts(calls, broker.value))
      && WithinBudget(calls)
    }

    /** At every operation boundary the cancellation record names exactly the live broker call. */
    ghost predicate Valid()
      reads this
    {
      && Core() && state != Disposing
      && active == (if broker.Some? then Some(broker.value.request) else None)
    }

    constructor (identity: InstanceIdentity, abi: nat, memory: Bytes, parse: Bytes -> Option<GuestStep>)
      requires |memory| <= MAX_WASM_MEMORY_BYTES
      ensures Valid() && this.identity == identity && this.abi == abi && this.parse == parse && state == Created && entries == 0 && calls == []
    {
      this.identity, this.abi, this.parse := identity, abi, parse;
      runtime, state, negotiated, broker := Some(Runtime(memory)), Created, None, None;
      active, pending, cancelled := None, {}, false;
      entries, calls := 0, [];
    }

    /** Any failure of the guest or of its protocol ends the host for good. */
    method Fail()
      modifies this
      ensures state == Quarantined && runtime.None? && broker.None? && active.None? && pending == {} && !cancelled
      ensures entries == old(entries) && calls == old(calls) && negotiated == old(negotiated)
    {
      runtime, broker := None, None;
      active, pending, cancelled := None, {}, false;
      state := Quarantined;
    }

    /** Another thread may hold the cancellation handle, and use it at any moment while a request is active. */
    method MaybeInterrupt()
      requires Core()
      modifies this`cancelled
      ensures Core() && (cancelled ==> old(cancelled) || active.Some?) && (old(cancelled) ==> cancelled)
    {
      var interrupted: bool := *;
      if interrupted && active.Some? {
        cancelled := true;
      }
    }

    /**
     * One entry into the guest, which may do anything to its own memory, may trap, and may be interrupted through
     * the cancellation handle while a request is active.
     */
    method CallGuest() returns (r: Result<int, Code>)
      requires Core() && runtime.Some?
      modifies this
      ensures Core() && old(entries) <= entries <= old(entries) + 1
      ensures r.Err? ==> state == Quarantined && calls == old(calls)
      ensures r.Ok? ==> entries == old(entries) + 1
      ensures r.Ok? ==>
        && state == old(state) && negotiated == old(negotiated) && broker == old(broker) && active == old(active)
        && pending == old(pending) && calls == old(calls)
    {
      MaybeInterrupt();
      if cancelled {
        Fail();
        return Err(Cancelled);
      }
      var outOfResources: bool := *;
      if outOfResources {
        Fail();
        return Err(ResourceLimit);
      }
      MaybeInterrupt();
      entries := entries + 1;
      var memory: Bytes := *;
      if |memory| <= MAX_WASM_MEMORY_BYTES {
        runtime := Some(Runtime(memory));
      }
      var trap: Option<Trap>, value: int := *, *;
      if trap.Some? {
        var code := ClassifyTrap(trap.value, cancelled);
        Fail();
        return Err(code);
      }
      return Ok(value);
    }

    method RequireSuccess(status: int) returns (r: Option<Code>)
      requires Core()
      modifies this
      ensures Core() && entries == old(entries) && calls == old(calls)
      ensures r.None? <==> status == 0
      ensures r.Some? ==> state == Quarantined && r == Some(GuestRejected)
      ensures r.None? ==>
        && state == old(state) && broker == old(broker) && active == old(active) && pending == old(pending)
        && negotiated == old(negotiated) && cancelled == old(cancelled)
    {
      if status == 0 {
        return None;
      }
      Fail();
      return Some(GuestRejected);
    }

    /** The guest names a piece of its memory by pointer and length; nothing outside that memory is read. */
    method ReadGuestUtf8(packed: int, maximum: nat) returns (r: Result<Bytes, Code>)
      requires runtime.Some?
      ensures r ==
        if Length(packed) > maximum then Err(PayloadTooLarge)
        else if InMemory(runtime.value, packed) && Utf8.IsUtf8(Named(runtime.value, packed)) then Ok(Named(runtime.value, packed))
        else Err(InvalidGuestOutput)
    {
      var pointer, length := Pointer(packed), Length(packed);
      if length > maximum {
        return Err(PayloadTooLarge);
      }
      var end := pointer + length;
      if end > |runtime.value.memory| {
        return Err(InvalidGuestOutput);
      }
      if !Utf8.IsUtf8(runtime.value.memory[pointer..end]) {
        return Err(InvalidGuestOutput);
      }
      return Ok(runtime.value.memory[pointer..end]);
    }

    /** Input goes to the start of the guest's memory, and only there. */
    method WriteGuestInput(bytes: Bytes, maximum: nat) returns (r: Option<Code>)
      requires Core() && runtime.Some?
      modifies this`runtime
      ensures Core() && runtime.Some?
      ensures r.None? <==> |bytes| <= maximum && |bytes| <= MAX_INPUT_BYTES && |bytes| <= |old(runtime).value.memory|
      ensures r.None? ==> runtime.value.memory == bytes + old(runtime).value.memory[|bytes|..]
      ensures r.Some? ==> runtime == old(runtime)
    {
      if |bytes| > maximum || |bytes| > MAX_INPUT_BYTES {
        return Some(PayloadTooLarge);
      }
      if |bytes| > |runtime.value.memory| {
        return Some(InvalidGuestOutput);
      }
      runtime := Some(Runtime(bytes + runtime.value.memory[|bytes|..]));
      return None;
    }

    /** Claims the one active request; a request cancelled beforehand is consumed instead. */
    method BeginRequest(request: Id) returns (ok: bool)
      requires Core() && !IsDead(state)
      modifies this`cancelled, this`pending, this`active
      ensures ok <==> request !in old(pending) && old(active).None?
      ensures active == (if ok then Some(request) else old(active)) && pending == old(pending) - {request} && !cancelled
    {
      cancelled := false;
      if request in pending {
        pending := pending - {request};
        return false;
      }
      if active.Some? {
        return false;
      }
      active := Some(request);
      return true;
    }

    method FinishRequest(request: Id)
      modifies this`cancelled, this`active
      ensures active == (if old(active) == Some(request) then None else old(active)) && !cancelled
    {
      if active == Some(request) {
        active := None;
      }
      cancelled := false;
    }

    /** The guest's answer: a well-formed step for this call, or the end of the host. */
    method TakeStep(packed: int, call: nat, maximum: nat) returns (r: Result<GuestStep, Code>, encoded: Bytes)
      requires Core() && runtime.Some?
      modifies this
      ensures Core() && entries == old(entries) && calls == old(calls)
      ensures r.Err? ==> state == Quarantined
      ensures r.Ok? ==> r.value.call == call && |encoded| <= maximum
      ensures r.Ok? ==> InMemory(old(runtime).value, packed) && encoded == Named(old(runtime).value, packed) && parse(encoded) == Some(r.value)
      ensures r.Ok? && r.value.BrokerRequest? ==> IsHandle(r.value.handle) && IsPermission(r.value.permission)
      ensures r.Ok? ==> unchanged(this)
    {
      encoded := [];
      var read := ReadGuestUtf8(packed, maximum);
      if read.Err? {
        Fail();
        return Err(read.error), encoded;
      }
      encoded := read.value;
      r := DecodeGuestStep(|encoded|, parse(encoded), call, maximum);
      if r.Err? {
        Fail();
      }
    }

    /** Begins the one top-level call a host can have; the guest yields before any broker work is done. */
    method BeginBrokerCall(request: Id, call: nat, input: Bytes, maximumInput: nat, maximumReturn: nat)
      returns (r: Result<GuestStep, Code>)
      requires Valid()
      modifies this
      ensures Valid()
      ensures old(state) != Active || abi != GUEST_ABI_V2 ==> r == Err(InvalidStateTransition) && unchanged(this)
      ensures r.Ok? ==> old(broker).None? && request !in old(pending) && |input| <= maximumInput
      ensures r.Ok? ==> r.value.call == call && state == Active && entries == old(entries) + 1 && calls == old(calls) + [[0]]
      ensures r.Ok? && IsTerminal(r.value) ==> broker.None?
      ensures r.Ok? && !IsTerminal(r.value) ==>
        && broker.Some? && broker.value.request == request && broker.value.call == call
        && broker.value.steps == 1 && broker.value.cumulative == 0 && parse(broker.value.lastStep) == Some(r.value)
        && IsHandle(r.value.handle) && IsPermission(r.value.permission)
      ensures r.Err? ==> state == Quarantined || (state == old(state) && broker == old(broker) && entries == old(entries))
      ensures r.Err? && broker.Some? ==> unchanged(this)
      ensures entries <= old(entries) + 1
      ensures old(state) == Active && abi == GUEST_ABI_V2 && BeginRefusal(old(broker), old(pending), request, |input|, maximumInput).Some? ==>
        && r == Err(BeginRefusal(old(broker), old(pending), request, |input|, maximumInput).value) && entries == old(entries)
        && state == if old(broker).Some? then Quarantined else Active
    {
      if state != Active || abi != GUEST_ABI_V2 {
        return Err(InvalidStateTransition);
      }
      if broker.Some? {
        Fail();
        return Err(BrokerSequenceViolation);
      }
      var admitted := BeginRequest(request);
      if !admitted {
        return Err(Cancelled);
      }
      if |input| > maximumInput {
        FinishRequest(request);
        return Err(PayloadTooLarge);
      }
      var refused := WriteGuestInput(input, maximumInput);
      if refused.Some? {
        FinishRequest(request);
        Fail();
        return Err(refused.value);
      }
      r := EnterBegin(request, call, maximumReturn);
    }

    /** The entry itself, with the request active and no call live. */
    method EnterBegin(request: Id, call: nat, maximumReturn: nat) returns (r: Result<GuestStep, Code>)
      requires Core() && state == Active && abi == GUEST_ABI_V2 && broker.None? && active == Some(request)
      modifies this
      ensures Valid() && entries <= old(entries) + 1
      ensures r.Err? ==> state == Quarantined
      ensures r.Ok? ==> r.value.call == call && state == Active && entries == old(entries) + 1 && calls == old(calls) + [[0]]
      ensures r.Ok? && IsTerminal(r.value) ==> broker.None?
      ensures r.Ok? && !IsTerminal(r.value) ==>
        && broker.Some? && broker.value.request == request && broker.value.call == call
        && broker.value.steps == 1 && broker.value.cumulative == 0 && parse(broker.value.lastStep) == Some(r.value)
        && IsHandle(r.value.handle) && IsPermission(r.value.permission)
    {
      var packed := CallGuest();
      if entries > old(entries) {
        assert Total([0]) == 0;
        calls := calls + [[0]];
      }
      if packed.Err? {
        return Err(packed.error);
      }
      var encoded;
      r, encoded := TakeStep(packed.value, call, maximumReturn);
      if r.Err? {
        return;
      }
      if IsTerminal(r.value) {
        FinishRequest(request);
      } else {
        broker := Some(BrokerCall(request, call, 1, 0, encoded));
      }
    }

    /** Continues exactly the live call, within its step and byte budgets; anything else ends the host. */
    method ResumeBrokerCall(request: Id, result: Bytes, rawBytes: nat, maximumReturn: nat) returns (r: Result<GuestStep, Code>)
      requires Valid()
      modifies this
      ensures Valid() && entries <= old(entries) + 1
      ensures r.Err? ==> state == Quarantined
      ensures ResumeRefusal(old(broker), request, |result|, rawBytes).Some? ==>
        r == Err(ResumeRefusal(old(broker), request, |result|, rawBytes).value) && entries == old(entries)
      ensures old(IsDead(state)) ==> entries == old(entries) && IsDead(state)
      ensures r.Ok? ==>
        && old(broker).Some? && old(broker).value.request == request && old(broker).value.steps < MAX_GUEST_BROKER_STEPS
        && old(broker).value.cumulative + rawBytes <= MAX_GUEST_BROKER_RESULT_BYTES
        && r.value.call == old(broker).value.call && state == old(state) && entries == old(entries) + 1
      ensures r.Ok? && IsTerminal(r.value) ==> broker.None?
      ensures r.Ok? && !IsTerminal(r.value) ==>
        && broker.Some? && broker.value.request == request && broker.value.call == old(broker).value.call
        && broker.value.steps == old(broker).value.steps + 1 && broker.value.cumulative == old(broker).value.cumulative + rawBytes
        && broker.value.lastStep != old(broker).value.lastStep && parse(broker.value.lastStep) == Some(r.value)
        && IsHandle(r.value.handle) && IsPermission(r.value.permission)
    {
      if broker.None? {
        Fail();
        return Err(BrokerSequenceViolation);
      }
      var live := broker.value;
      if live.request != request {
        Fail();
        return Err(BrokerSequenceViolation);
      }
      if live.steps >= MAX_GUEST_BROKER_STEPS {
        Fail();
        return Err(BrokerStepLimit);
      }
      var cumulative := live.cumulative + rawBytes;
      if cumulative > MAX_GUEST_BROKER_RESULT_BYTES || |result| > MAX_GUEST_BROKER_RESUME_BYTES {
        Fail();
        return Err(BrokerResultLimit);
      }
      var refused := WriteGuestInput(result, MAX_GUEST_BROKER_RESUME_BYTES);
      if refused.Some? {
        Fail();
        return Err(refused.value);
      }
      r := EnterResume(request, rawBytes, maximumReturn);
    }

    method EnterResume(request: Id, rawBytes: nat, maximumReturn: nat) returns (r: Result<GuestStep, Code>)
      requires Valid() && broker.Some? && broker.value.request == request && broker.value.steps < MAX_GUEST_BROKER_STEPS
      requires broker.value.cumulative + rawBytes <= MAX_GUEST_BROKER_RESULT_BYTES
      modifies this
      ensures Valid() && entries <= old(entries) + 1
      ensures r.Err? ==> state == Quarantined
      ensures r.Ok? ==> r.value.call == old(broker).value.call && state == old(state) && entries == old(entries) + 1
      ensures r.Ok? && IsTerminal(r.value) ==> broker.None?
      ensures r.Ok? && !IsTerminal(r.value) ==>
        && broker.Some? && broker.value.request == request && broker.value.call == old(broker).value.call
        && broker.value.steps == old(broker).value.steps + 1 && broker.value.cumulative == old(broker).value.cumulative + rawBytes
        && broker.value.lastStep != old(broker).value.lastStep && parse(broker.value.lastStep) == Some(r.value)
        && IsHandle(r.value.handle) && IsPermission(r.value.permission)
    {
      var live := broker.value;
      var packed := CallGuest();
      ghost var entered := entries > old(entries);
      if packed.Err? {
        if entered { calls := OneMoreEntry(calls, rawBytes); }
        return Err(packed.error);
      }
      var encoded;
      r, encoded := TakeStep(packed.value, live.call, maximumReturn);
      if r.Err? {
        calls := OneMoreEntry(calls, rawBytes);
        return;
      }
      if r.value.BrokerRequest? && encoded == live.lastStep {
        Fail();
        calls := OneMoreEntry(calls, rawBytes);
        return Err(BrokerSequenceViolation);
      }
      if IsTerminal(r.value) {
        broker := None;
        FinishRequest(request);
      } else {
        broker := Some(BrokerCall(request, live.call, live.steps + 1, live.cumulative + rawBytes, encoded));
      }
      calls := OneMoreEntry(calls, rawBytes);
    }

    /** Cancels exactly the live call. */
    method CancelBrokerCall(request: Id) returns (r: Result<bool, Code>)
      requires Valid()
      modifies this
      ensures Valid() && entries <= old(entries) + 1 && calls == old(calls)
      ensures old(broker).None? ==> r == Ok(false) && unchanged(this)
      ensures broker.None? && (r.Err? ==> state == Quarantined)
      ensures r.Ok? && r.value ==> old(broker).Some? && old(broker).value.request == request && broker.None? && state == old(state)
      ensures old(broker).Some? && old(broker).value.request != request ==>
        r == Err(BrokerSequenceViolation) && entries == old(entries)
    {
      if broker.None? {
        return Ok(false);
      }
      if broker.value.request != request {
        Fail();
        return Err(BrokerSequenceViolation);
      }
      var status := CallGuest();
      if status.Err? {
        return Err(status.error);
      }
      var refused := RequireSuccess(status.value);
      if refused.Some? {
        return Err(refused.value);
      }
      broker := None;
      FinishRequest(request);
      return Ok(true);
    }

    /** The cancellation handle: interrupts only the request that is active. */
    method CancelInflight(request: Id) returns (ok: bool)
      requires Valid()
      modifies this`cancelled
      ensures Valid() && (ok <==> active == Some(request))
      ensures cancelled == (old(cancelled) || ok)
    {
      if active != Some(request) {
        return false;
      }
      cancelled := true;
      return true;
    }

    method QuarantineForTimeout() returns (ok: bool)
      requires Valid()
      modifies this
      ensures Valid() && entries == old(entries) && (ok <==> !old(IsDead(state)))
      ensures if ok then state == Quarantined else unchanged(this)
    {
      if IsDead(state) {
        return false;
      }
      Fail();
      return true;
    }

    /** A lifecycle frame, whatever the guest does with it. */
    method HandleFrame(instance: Id, message: Message) returns (r: Result<Option<Response>, Code>)
      requires Valid()
      modifies this
      ensures Valid() && entries <= old(entries) + 1 && calls == old(calls)
      ensures instance != identity.host ==> r == Err(UnknownInstance) && unchanged(this)
      ensures instance == identity.host && old(IsDead(state)) ==> r == Err(InvalidStateTransition) && unchanged(this)
      ensures Handles(old(state), message, r, state)
    {
      if instance != identity.host {
        return Err(UnknownInstance);
      }
      if IsDead(state) {
        return Err(InvalidStateTransition);
      }
      match message {
        case Hello(version) => r := HandleHello(version);
        case Activate => r := HandleActivate();
        case Echo(request, payload) => r := HandleEcho(request, payload);
        case Heartbeat => r := HandleHeartbeat();
        case Cancel(request) => r := CancelBeforeDispatch(request);
        case Quiesce => r := HandleQuiesce();
        case Dispose => r := HandleDispose();
      }
    }

    method HandleHello(version: nat) returns (r: Result<Option<Response>, Code>)
      requires Valid() && !IsDead(state)
      modifies this
      ensures Valid() && entries == old(entries) && calls == old(calls)
      ensures r.Ok? <==> old(state) == Created && version == HOST_PROTOCOL_VERSION
      ensures if r.Ok? then state == Ready && r.value == Some(IsReady) else unchanged(this)
      ensures r.Err? ==> r.error == if old(state) == Created then VersionMismatch else InvalidStateTransition
      ensures Handles(old(state), Hello(version), r, state)
    {
      if state != Created {
        return Err(InvalidStateTransition);
      }
      if version != HOST_PROTOCOL_VERSION {
        return Err(VersionMismatch);
      }
      negotiated := Some(version);
      state := Ready;
      return Ok(Some(IsReady));
    }

    /** An entry that only answers with a status. */
    method CallForStatus() returns (r: Option<Code>)
      requires Core() && runtime.Some?
      modifies this
      ensures Core() && entries <= old(entries) + 1 && calls == old(calls)
      ensures r.Some? ==> state == Quarantined
      ensures r.None? ==>
        && state == old(state) && negotiated == old(negotiated) && broker == old(broker) && active == old(active)
        && pending == old(pending)
    {
      var status := CallGuest();
      if status.Err? {
        return Some(status.error);
      }
      r := RequireSuccess(status.value);
    }

    method HandleActivate() returns (r: Result<Option<Response>, Code>)
      requires Valid() && !IsDead(state)
      modifies this
      ensures Valid() && entries <= old(entries) + 1 && calls == old(calls)
      ensures old(state) != Ready ==> r == Err(InvalidStateTransition) && unchanged(this)
      ensures r.Ok? ==> state == Active && r.value == Some(Activated)
      ensures r.Err? && old(state) == Ready ==> state == Quarantined
      ensures Handles(old(state), Message.Activate, r, state)
    {
      if state != Ready || negotiated != Some(HOST_PROTOCOL_VERSION) {
        return Err(InvalidStateTransition);
      }
      var refused := CallForStatus();
      if refused.Some? {
        return Err(refused.value);
      }
      state := Active;
      return Ok(Some(Activated));
    }

    method HandleEcho(request: Id, payload: Bytes) returns (r: Result<Option<Response>, Code>)
      requires Valid() && !IsDead(state)
      modifies this
      ensures Valid() && entries <= old(entries) + 1 && calls == old(calls)
      ensures state == old(state) || state == Quarantined
      ensures old(state) != Active ==> r == Err(InvalidStateTransition) && unchanged(this)
      ensures old(state) == Active && |payload| > MAX_ECHO_PAYLOAD_BYTES ==> r == Err(PayloadTooLarge) && unchanged(this)
      ensures old(state) == Active && |payload| <= MAX_ECHO_PAYLOAD_BYTES && (request in old(pending) || old(broker).Some?) ==>
        && r == Err(Cancelled) && state == Active && entries == old(entries) && broker == old(broker)
        && pending == old(pending) - {request}
      ensures r.Ok? ==> state == Active && Echoes(r.value, request)
      ensures Handles(old(state), Echo(request, payload), r, state)
    {
      if state != Active {
        return Err(InvalidStateTransition);
      }
      if |payload| > MAX_ECHO_PAYLOAD_BYTES {
        return Err(PayloadTooLarge);
      }
      var admitted := BeginRequest(request);
      if !admitted {
        return Err(Cancelled);
      }
      r := EnterEcho(request, payload);
    }

    /** The entry itself, with the request active and no broker call live. */
    method EnterEcho(request: Id, payload: Bytes) returns (r: Result<Option<Response>, Code>)
      requires Core() && state == Active && broker.None? && active == Some(request) && |payload| <= MAX_ECHO_PAYLOAD_BYTES
      modifies this
      ensures Valid() && entries <= old(entries) + 1 && calls == old(calls)
      ensures state == if r.Ok? then Active else Quarantined
      ensures r.Ok? ==> Echoes(r.value, request)
    {
      var refused := WriteGuestInput(payload, MAX_ECHO_PAYLOAD_BYTES);
      if refused.Some? {
        FinishRequest(request);
        Fail();
        return Err(InvalidGuestOutput);
      }
      var packed := CallGuest();
      FinishRequest(request);
      if packed.Err? {
        return Err(packed.error);
      }
      var response := ReadGuestUtf8(packed.value, MAX_ECHO_PAYLOAD_BYTES);
      if response.Err? {
        Fail();
        return Err(response.error);
      }
      return Ok(Some(EchoResult(request, response.value)));
    }

    method HandleHeartbeat() returns (r: Result<Option<Response>, Code>)
      requires Valid() && !IsDead(state)
      modifies this
      ensures Valid() && entries <= old(entries) + 1 && calls == old(calls)
      ensures old(state) != Active ==> r == Err(InvalidStateTransition) && unchanged(this)
      ensures old(state) == Active ==> state == if r.Ok? then Active else Quarantined
      ensures r.Ok? ==> r.value == Some(HeartbeatAck) && broker == old(broker)
      ensures Handles(old(state), Heartbeat, r, state)
    {
      if state != Active {
        return Err(InvalidStateTransition);
      }
      var refused := CallForStatus();
      if refused.Some? {
        return Err(refused.value);
      }
      return Ok(Some(HeartbeatAck));
    }

    /** At most 256 requests can be cancelled ahead of their dispatch. */
    method CancelBeforeDispatch(request: Id) returns (r: Result<Option<Response>, Code>)
      requires Valid() && !IsDead(state)
      modifies this`pending
      ensures Valid()
      ensures r.Ok? <==>
        (state == Active || state == Quiescing) && (request in old(pending) || |old(pending)| < MAX_PENDING_WASM_CANCELLATIONS)
      ensures pending == if r.Ok? then old(pending) + {request} else old(pending)
      ensures r.Ok? ==> r.value == None
      ensures r.Err? ==> r.error == if state == Active || state == Quiescing then ResourceLimit else InvalidStateTransition
      ensures Handles(old(state), Cancel(request), r, state)
    {
      if state != Active && state != Quiescing {
        return Err(InvalidStateTransition);
      }
      if |pending| >= MAX_PENDING_WASM_CANCELLATIONS && request !in pending {
        return Err(ResourceLimit);
      }
      if request in pending { assert pending + {request} == pending; }
      pending := pending + {request};
      return Ok(None);
    }

    method HandleQuiesce() returns (r: Result<Option<Response>, Code>)
      requires Valid() && !IsDead(state)
      modifies this
      ensures Valid() && entries <= old(entries) + 1 && calls == old(calls)
      ensures old(state) != Active && old(state) != Ready ==> r == Err(InvalidStateTransition) && unchanged(this)
      ensures old(state) == Active || old(state) == Ready ==> state == if r.Ok? then Quiescing else Quarantined
      ensures r.Ok? ==> r.value == Some(Quiesced) && broker == old(broker)
      ensures Handles(old(state), Message.Quiesce, r, state)
    {
      if state != Active && state != Ready {
        return Err(InvalidStateTransition);
      }
      var refused := CallForStatus();
      if refused.Some? {
        return Err(refused.value);
      }
      state := Quiescing;
      return Ok(Some(Quiesced));
    }

    /** Whatever the guest answers, disposal leaves a dead host. */
    method HandleDispose() returns (r: Result<Option<Response>, Code>)
      requires Valid() && !IsDead(state)
      modifies this
      ensures Valid() && entries <= old(entries) + 1 && calls == old(calls)
      ensures old(state) == Created ==> r == Err(InvalidStateTransition) && unchanged(this)
      ensures old(state) != Created ==> state == if r.Ok? then Disposed else Quarantined
      ensures r.Ok? ==> r.value == Some(IsDisposed)
      ensures Handles(old(state), Message.Dispose, r, state)
    {
      if state != Ready && state != Active && state != Quiescing {
        return Err(InvalidStateTransition);
      }
      state := Disposing;
      var refused := CallForStatus();
      if refused.Some? {
        return Err(refused.value);
      }
      runtime, broker := None, None;
      active, pending, cancelled := None, {}, false;
      state := Disposed;
      return Ok(Some(IsDisposed));
    }
  }

  /** One more entry of the live top-level call. */
  ghost function OneMoreEntry(calls: seq<seq<nat>>, rawBytes: nat): seq<seq<nat>>
    requires calls != []
  {
    calls[..|calls|-1] + [calls[|calls|-1] + [rawBytes]]
  }

  /** The guest names bytes that it has. */
  predicate InMemory(runtime: Runtime, packed: int) { Pointer(packed) + Length(packed) <= |runtime.memory| }

  function Named(runtime: Runtime, packed: int): Bytes
    requires InMemory(runtime, packed)
  {
    runtime.memory[Pointer(packed)..Pointer(packed) + Length(packed)]
  }

  function Pointer(packed: int): nat { (packed % 0x1_0000_0000_0000_0000) / 0x1_0000_0000 }

  function Length(packed: int): nat { packed % 0x1_0000_0000 }

  /** The last top-level call is the live one, entered once per step. */
  ghost predicate Accounts(calls: seq<seq<nat>>, broker: BrokerCall) {
    && 1 <= broker.steps <= MAX_GUEST_BROKER_STEPS && calls != []
    && |calls[|calls|-1]| == broker.steps && Total(calls[|calls|-1]) == broker.cumulative
  }

  ghost predicate WithinBudget(calls: seq<seq<nat>>) {
    forall k :: 0 <= k < |calls| ==>
      |calls[k]| <= MAX_GUEST_BROKER_STEPS && Total(calls[k]) <= MAX_GUEST_BROKER_RESULT_BYTES
  }
}
