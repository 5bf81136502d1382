/** One contribution call on a Wasm host, from admission to its single outcome (contribution_call.rs). */
module Session {
  import opened Basics
  import opened WasmHost
  import JsonSchema

  const CONTRIBUTION_CALL_DEADLINE_MILLIS: nat := 30_000
  const MAX_CONTRIBUTION_CALL_BYTES: nat := 256 * 1024
  const MAX_VIEWER_DOCUMENT_BYTES: nat := 1024 * 1024
  const MAX_CONTRIBUTION_CALL_HANDLES: nat := 64
  const MAX_GUEST_CONTRIBUTION_ENVELOPE_BYTES: nat := 384 * 1024
  const MAX_GUEST_CONTRIBUTION_RETURN_BYTES: nat := 1088 * 1024
  const MAX_MILLIS: nat := 0xffff_ffff_ffff_ffff

  datatype Kind = Command | Tool | Source | Viewer | Panel | Skill

  datatype CallError =
    | MissingContribution | NotCallable | StaleIdentity | InvalidInput | InputTooLarge | InvalidHandleSet
    | HandleNotSupplied | DeadlineExceeded | SequenceViolation | HostRejected | InvalidOutput | OutputTooLarge

  /** What the contribution registry holds for one capability of a project. */
  datatype Record = Record(
    identity: InstanceIdentity, major: nat, kind: Kind,
    inputSchema: Option<JsonSchema.BoundedSchema>, outputSchema: Option<JsonSchema.BoundedSchema>)

  type Payload = JsonSchema.Payload

  datatype Provenance = Provenance(call: nat, contribution: Id, major: nat, identity: InstanceIdentity, brokerSteps: nat)

  datatype Outcome = Completed(result: JsonSchema.Value, provenance: Provenance) | Failed(code: string, provenance: Provenance)

  /** Permissions and the capability handles supplied for them. */
  type Handles = map<string, string>

  predicate ValidHandles(handles: Handles) {
    |handles| <= MAX_CONTRIBUTION_CALL_HANDLES && forall p :: p in handles ==> IsPermission(p) && IsHandle(handles[p])
  }

  function ByteLimit(kind: Kind): nat {
    if kind.Viewer? || kind.Panel? then MAX_VIEWER_DOCUMENT_BYTES else MAX_CONTRIBUTION_CALL_BYTES
  }

  /** Small enough for its kind, and of the type that the output schema describes. */
  ghost predicate FitsOutput(kind: Kind, schema: JsonSchema.BoundedSchema, result: Payload) {
    result.bytes <= ByteLimit(kind) && JsonSchema.Conforms(schema, result.value)
  }

  method ValidateTerminalResult(kind: Kind, schema: JsonSchema.BoundedSchema, result: Payload) returns (fault: Option<CallError>)
    ensures fault.None? <==> FitsOutput(kind, schema, result)
    ensures fault.Some? ==> fault.value == if result.bytes > ByteLimit(kind) then OutputTooLarge else InvalidOutput
  {
    if result.bytes > ByteLimit(kind) {
      return Some(OutputTooLarge);
    }
    var fits := JsonSchema.ValidateInstance(schema, result.value);
    return if fits then None else Some(InvalidOutput);
  }

  /** The checks before the clock is read and the guest is entered. */
  ghost function AdmissionFault(handles: Handles, record: Option<Record>, host: InstanceIdentity, input: Payload): Option<CallError> {
    if !ValidHandles(handles) then Some(InvalidHandleSet)
    else if record.None? then Some(MissingContribution)
    else if record.value.kind.Skill? then Some(NotCallable)
    else if host != record.value.identity then Some(StaleIdentity)
    else if input.bytes > MAX_CONTRIBUTION_CALL_BYTES then Some(InputTooLarge)
    else if record.value.inputSchema.None? then Some(NotCallable)
    else if !JsonSchema.Conforms(record.value.inputSchema.value, input.value) then Some(InvalidInput)
    else if record.value.outputSchema.None? then Some(NotCallable)
    else None
  }

  method Admit(handles: Handles, record: Option<Record>, host: InstanceIdentity, input: Payload) returns (fault: Option<CallError>)
    ensures fault == AdmissionFault(handles, record, host, input)
  {
    if !ValidHandles(handles) {
      return Some(InvalidHandleSet);
    }
    if record.None? {
      return Some(MissingContribution);
    }
    var found := record.value;
    if found.kind.Skill? {
      return Some(NotCallable);
    }
    if host != found.identity {
      return Some(StaleIdentity);
    }
    if input.bytes > MAX_CONTRIBUTION_CALL_BYTES {
      return Some(InputTooLarge);
    }
    if found.inputSchema.None? {
      return Some(NotCallable);
    }
    var fits := JsonSchema.ValidateInstance(found.inputSchema.value, input.value);
    if !fits {
      return Some(InvalidInput);
    }
    return if found.outputSchema.None? then Some(NotCallable) else None;
  }

  /** The record is of the very instance that this host runs. */
  predicate RunsOn(record: Record, host: InstanceIdentity) {
    && record.identity.project == host.project && record.identity.plugin == host.plugin && record.identity.digest == host.digest
    && record.identity.generation == host.generation && record.identity.host == host.host
  }

  /** Published, callable, of this very host, and with both schemas. */
  predicate IsCallable(record: Option<Record>, host: InstanceIdentity) {
    && record.Some? && record.value.kind != Skill && RunsOn(record.value, host)
    && record.value.inputSchema.Some? && record.value.outputSchema.Some?
  }

  /** The text of the input schema allows the input, which is small enough. */
  ghost predicate TakesInput(record: Record, input: Payload)
    requires record.inputSchema.Some?
  {
    input.bytes <= 262144 && JsonSchema.Allows(record.inputSchema.value, input.value)
  }

  lemma InputExactly(record: Record, input: Payload)
    requires record.inputSchema.Some?
    ensures TakesInput(record, input) <==>
      input.bytes <= MAX_CONTRIBUTION_CALL_BYTES && JsonSchema.Conforms(record.inputSchema.value, input.value)
  {
    JsonSchema.ConformsExactly(record.inputSchema.value, input.value);
  }

  /** A call is admitted exactly when its handles are well formed, the contribution is callable here, and takes the input. */
  lemma AdmittedExactly(handles: Handles, record: Option<Record>, host: InstanceIdentity, input: Payload)
    ensures AdmissionFault(handles, record, host, input).None? <==>
      ValidHandles(handles) && IsCallable(record, host) && TakesInput(record.value, input)
  {
    if record.Some? && record.value.inputSchema.Some? { InputExactly(record.value, input); }
  }

  /** Each refusal says what is missing. */
  lemma RefusalExplains(handles: Handles, record: Option<Record>, host: InstanceIdentity, input: Payload)
    ensures match AdmissionFault(handles, record, host, input)
      case None => true
      case Some(InvalidHandleSet) => !ValidHandles(handles)
      case Some(MissingContribution) => record.None?
      case Some(StaleIdentity) => record.Some? && !RunsOn(record.value, host)
      case Some(InputTooLarge) => input.bytes > 262144
      case Some(InvalidInput) => record.Some? && record.value.inputSchema.Some? && !TakesInput(record.value, input)
      case Some(NotCallable) => record.Some? && !IsCallable(record, host)
      case Some(_) => false
  {
    if record.Some? && record.value.inputSchema.Some? { InputExactly(record.value, input); }
  }

  class CallSession {
    const request: Id
    const call: nat
    const identity: InstanceIdentity
    const contribution: Id
    const major: nat
    const kind: Kind
    const outputSchema: JsonSchema.BoundedSchema
    const deadline: nat
    const handles: Handles
    var brokerSteps: nat
    var waiting: bool
    var terminal: bool
    /** Outcomes handed out so far. */
    ghost var outcomes: nat

    ghost predicate Valid()
      reads this
    {
      && ValidHandles(handles)
      && (terminal ==> !waiting)
      && outcomes <= (if terminal then 1 else 0)
      && (waiting ==> brokerSteps <= MAX_GUEST_BROKER_STEPS)
    }

    /** While the session waits, the host's step count for its request is the session's own. */
    ghost predicate InStep(host: WasmPluginHost)
      reads this, host
    {
      waiting && host.broker.Some? && host.broker.value.request == request ==>
        host.broker.value.steps == brokerSteps && host.broker.value.call == call
    }

    constructor (request: Id, call: nat, contribution: Id, record: Record, deadline: nat, handles: Handles)
      requires ValidHandles(handles) && record.outputSchema.Some?
      ensures Valid() && this.request == request && this.call == call && identity == record.identity
      ensures this.contribution == contribution && major == record.major && kind == record.kind && outputSchema == record.outputSchema.value
      ensures this.deadline == deadline && this.handles == handles
      ensures brokerSteps == 0 && !waiting && !terminal && outcomes == 0
    {
      this.request, this.call, this.identity := request, call, record.identity;
      this.contribution, this.major, this.kind, this.outputSchema := contribution, record.major, record.kind, record.outputSchema.value;
      this.deadline, this.handles := deadline, handles;
      brokerSteps, waiting, terminal, outcomes := 0, false, false, 0;
    }

    /** The registry still holds what was captured at admission. */
    predicate Current(record: Option<Record>) {
      record.Some? && record.value.identity == identity && record.value.major == major
    }

    /** A broker request must name a handle supplied for exactly that permission. */
    method AcceptStep(step: GuestStep) returns (fault: Option<CallError>)
      modifies this`brokerSteps, this`waiting
      ensures fault.None? ==> step.call == call
      ensures fault.None? && step.BrokerRequest? ==>
        && step.permission in handles && handles[step.permission] == step.handle
        && brokerSteps == old(brokerSteps) + 1 && waiting
      ensures fault.None? && IsTerminal(step) ==> brokerSteps == old(brokerSteps) && !waiting
      ensures fault.Some? ==> brokerSteps == old(brokerSteps) && waiting == old(waiting)
      ensures step.call != call ==> fault == Some(SequenceViolation)
      ensures step.call == call && step.BrokerRequest? && !(step.permission in handles && handles[step.permission] == step.handle) ==>
        fault == Some(HandleNotSupplied)
    {
      if step.call != call {
        return Some(SequenceViolation);
      }
      if step.BrokerRequest? {
        if step.permission !in handles || handles[step.permission] != step.handle {
          return Some(HandleNotSupplied);
        }
        brokerSteps := brokerSteps + 1;
        waiting := true;
      } else {
        waiting := false;
      }
      return None;
    }

    /** Why the call can no longer be served, if it cannot. */
    function Staleness(record: Option<Record>, now: nat, host: InstanceIdentity): Option<CallError> {
      if now >= deadline then Some(DeadlineExceeded)
      else if host == identity && Current(record) then None
      else Some(StaleIdentity)
    }

    /** Past the deadline, or with another route in the registry, the call is over. */
    method EnsureLive(record: Option<Record>, now: nat, host: WasmPluginHost) returns (fault: Option<CallError>)
      requires Valid() && host.Valid()
      modifies this`waiting, this`terminal, host
      ensures Valid() && host.Valid()
      ensures fault == Staleness(record, now, host.identity)
      ensures fault.None? ==> unchanged(this) && unchanged(host)
      ensures terminal == (old(terminal) || now >= deadline || (host.identity == identity && !Current(record)))
      ensures fault.Some? && waiting ==> old(waiting) && unchanged(host)
    {
      if now >= deadline {
        var _ := host.CancelBrokerCall(request);
        terminal, waiting := true, false;
        return Some(DeadlineExceeded);
      }
      if host.identity != identity {
        return Some(StaleIdentity);
      }
      if !Current(record) {
        var _ := host.CancelBrokerCall(request);
        terminal, waiting := true, false;
        return Some(StaleIdentity);
      }
      return None;
    }

    method Resume(record: Option<Record>, result: Bytes, rawBytes: nat, now: nat, host: WasmPluginHost)
      returns (r: Result<GuestStep, CallError>)
      requires Valid() && host.Valid() && InStep(host)
      modifies this`brokerSteps, this`waiting, this`terminal, host
      ensures Valid() && host.Valid() && InStep(host)
      ensures r.Ok? ==> Staleness(record, now, host.identity).None? && old(waiting) && !terminal && r.value.call == call
      ensures r.Ok? && r.value.BrokerRequest? ==>
        && r.value.permission in handles && handles[r.value.permission] == r.value.handle
        && waiting && brokerSteps == old(brokerSteps) + 1 && brokerSteps <= MAX_GUEST_BROKER_STEPS
      ensures r.Ok? && IsTerminal(r.value) ==> !waiting && brokerSteps == old(brokerSteps)
      ensures Staleness(record, now, host.identity).Some? ==> r == Err(Staleness(record, now, host.identity).value)
      ensures Staleness(record, now, host.identity).None? ==>
        && (r.Err? ==> !waiting)
        && (!old(waiting) ==> r == Err(SequenceViolation) && unchanged(this) && unchanged(host))
    {
      var dead := EnsureLive(record, now, host);
      if dead.Some? {
        return Err(dead.value);
      }
      if terminal || !waiting {
        return Err(SequenceViolation);
      }
      waiting := false;
      var resumed := host.ResumeBrokerCall(request, result, rawBytes, MAX_GUEST_CONTRIBUTION_RETURN_BYTES);
      if resumed.Err? {
        return Err(HostRejected);
      }
      var step := resumed.value;
      var refused := AcceptStep(step);
      if refused.Some? {
        var _ := host.CancelBrokerCall(request);
        return Err(refused.value);
      }
      return Ok(step);
    }

    /** Turns a terminal step into the one outcome of the call. */
    method Finish(record: Option<Record>, step: GuestStep, now: nat, host: WasmPluginHost)
      returns (r: Result<Outcome, CallError>)
      requires Valid() && host.Valid() && InStep(host)
      modifies this`waiting, this`terminal, this`outcomes, host
      ensures Valid() && host.Valid() && InStep(host)
      ensures outcomes == old(outcomes) + if r.Ok? then 1 else 0
      ensures r.Ok? <==>
        && Staleness(record, now, host.identity).None? && !old(terminal) && step.call == call && IsTerminal(step)
        && (step.Complete? ==> FitsOutput(kind, outputSchema, step.result))
      ensures old(terminal) || r.Ok? ==> terminal
      ensures Staleness(record, now, host.identity).Some? ==> r == Err(Staleness(record, now, host.identity).value)
      ensures r.Err? && Staleness(record, now, host.identity).None? ==>
        r.error == (
          if old(terminal) || step.call != call || !IsTerminal(step) then SequenceViolation
          else if step.result.bytes > ByteLimit(kind) then OutputTooLarge
          else InvalidOutput)
      ensures r.Ok? ==> r.value.provenance == Provenance(call, contribution, major, identity, brokerSteps)
      ensures r.Ok? && step.Complete? ==> r.value == Completed(step.result.value, r.value.provenance)
      ensures r.Ok? && step.Error? ==> r.value == Failed(step.code, r.value.provenance)
    {
      var dead := EnsureLive(record, now, host);
      if dead.Some? {
        return Err(dead.value);
      }
      if terminal || step.call != call {
        return Err(SequenceViolation);
      }
      var provenance := Provenance(call, contribution, major, identity, brokerSteps);
      match step {
        case Complete(_, result) =>
          terminal, waiting := true, false;
          var fault := ValidateTerminalResult(kind, outputSchema, result);
          if fault.Some? {
            return Err(fault.value);
          }
          r := Ok(Completed(result.value, provenance));
        case Error(_, code) =>
          terminal, waiting := true, false;
          r := Ok(Failed(code, provenance));
        case BrokerRequest(_, _, _, _, _) =>
          return Err(SequenceViolation);
      }
      outcomes := outcomes + 1;
    }

    /** Ends the call on both sides; a call that ended stays as it is. */
    method Cancel(host: WasmPluginHost) returns (r: Result<bool, CallError>)
      requires Valid() && host.Valid() && InStep(host)
      modifies this`waiting, this`terminal, host
      ensures Valid() && host.Valid() && InStep(host)
      ensures old(terminal) ==> r == Ok(false) && unchanged(host)
      ensures r.Ok? ==> terminal
      ensures r.Err? ==> r == Err(HostRejected) && IsDead(host.state)
    {
      if terminal {
        return Ok(false);
      }
      var cancelled := host.CancelBrokerCall(request);
      if cancelled.Err? {
        return Err(HostRejected);
      }
      terminal, waiting := true, false;
      return Ok(cancelled.value);
    }

    /** Withdraws the session before its outcome is published. */
    method InvalidateBeforePublish()
      requires Valid()
      modifies this`waiting, this`terminal
      ensures Valid() && terminal && !waiting
    {
      terminal, waiting := true, false;
    }
  }

  /** Admits a call and enters the guest; `request` and `call` are the fresh ids drawn for it. */
  method Begin(contribution: Id, record: Option<Record>, input: Payload, envelope: Bytes, handles: Handles,
    request: Id, call: nat, now: nat, host: WasmPluginHost)
    returns (r: Result<(CallSession, GuestStep), CallError>)
    requires host.Valid()
    modifies host
    ensures host.Valid()
    ensures AdmissionFault(handles, record, host.identity, input).Some? ==>
      r == Err(AdmissionFault(handles, record, host.identity, input).value) && unchanged(host)
    ensures AdmissionFault(handles, record, host.identity, input).None? && now + CONTRIBUTION_CALL_DEADLINE_MILLIS > MAX_MILLIS ==>
      r == Err(DeadlineExceeded) && unchanged(host)
    ensures r.Ok? ==>
      && AdmissionFault(handles, record, host.identity, input).None?
      && fresh(r.value.0) && r.value.0.Valid() && r.value.0.InStep(host)
      && r.value.0.identity == record.value.identity && r.value.0.major == record.value.major && r.value.0.handles == handles
      && r.value.0.deadline == now + CONTRIBUTION_CALL_DEADLINE_MILLIS <= MAX_MILLIS
      && r.value.0.request == request && r.value.0.contribution == contribution && r.value.0.kind == record.value.kind
      && r.value.0.outputSchema == record.value.outputSchema.value
      && r.value.0.outcomes == 0 && !r.value.0.terminal && r.value.1.call == r.value.0.call
    ensures r.Ok? && r.value.1.BrokerRequest? ==>
      && r.value.0.waiting && r.value.0.brokerSteps == 1
      && r.value.1.permission in handles && handles[r.value.1.permission] == r.value.1.handle
    ensures r.Ok? && IsTerminal(r.value.1) ==> !r.value.0.waiting && host.broker.None?
    ensures r.Err? && host.broker.Some? ==> unchanged(host)
  {
    var fault := Admit(handles, record, host.identity, input);
    if fault.Some? {
      return Err(fault.value);
    }
    if now + CONTRIBUTION_CALL_DEADLINE_MILLIS > MAX_MILLIS {
      return Err(DeadlineExceeded);
    }
    var begun := host.BeginBrokerCall(
      request, call, envelope, MAX_GUEST_CONTRIBUTION_ENVELOPE_BYTES, MAX_GUEST_CONTRIBUTION_RETURN_BYTES);
    if begun.Err? {
      return Err(HostRejected);
    }
    var step := begun.value;
    var session := new CallSession(
      request, step.call, contribution, record.value, now + CONTRIBUTION_CALL_DEADLINE_MILLIS, handles);
    var refused := session.AcceptStep(step);
    if refused.Some? {
      var _ := host.CancelBrokerCall(request);
      return Err(refused.value);
    }
    return Ok((session, step));
  }
}
