/** The operation slots of a UART device (src/hal/uart/hal_uart.c).  Submissions
    and completions each run under the UART mutex; what io_uring answers is a
    parameter, and a completion carries the slot its submission was given. */
module Uart {
  import opened Options

  const DEVICE_COUNT := 3
  const MAX_QUEUED_OPERATIONS := 4

  datatype Status = Successful | NullParam | InvalidValue | SystemError | ActionFailed

  datatype OpSlot<C> = OpSlot(callback: Option<C>, used: bool)

  /** An operation the kernel has accepted: its number and the callback its
      submitter registered. */
  datatype Operation<C> = Operation(id: nat, callback: Option<C>)

  /** The operation in each slot, if any. */
  type InFlight<C> = s: seq<Option<Operation<C>>> | |s| == MAX_QUEUED_OPERATIONS witness seq(4, _ => None)

  ghost function Busy<C>(ops: InFlight<C>): nat {
    (if ops[0].Some? then 1 else 0) + (if ops[1].Some? then 1 else 0)
    + (if ops[2].Some? then 1 else 0) + (if ops[3].Some? then 1 else 0)
  }

  /** The books of a device: operations are numbered as they are accepted, and
      each is in flight in one slot or has completed, once. */
  ghost predicate Accounted<C>(ops: InFlight<C>, completed: seq<nat>, accepted: nat) {
    && (forall i :: 0 <= i < MAX_QUEUED_OPERATIONS && ops[i].Some? ==>
        ops[i].value.id < accepted && ops[i].value.id !in completed)
    && (forall i, j :: 0 <= i < j < MAX_QUEUED_OPERATIONS && ops[i].Some? && ops[j].Some? ==>
        ops[i].value.id != ops[j].value.id)
    && (forall i :: 0 <= i < |completed| ==> completed[i] < accepted)
    && (forall i, j :: 0 <= i < j < |completed| ==> completed[i] != completed[j])
    && Busy(ops) + |completed| == accepted
  }

  lemma SubmitAccounted<C>(ops: InFlight<C>, completed: seq<nat>, accepted: nat, slot: nat, callback: Option<C>)
    requires Accounted(ops, completed, accepted) && slot < MAX_QUEUED_OPERATIONS && ops[slot] == None
    ensures Accounted(ops[slot := Some(Operation(accepted, callback))], completed, accepted + 1)
  {
  }

  lemma CompleteAccounted<C>(ops: InFlight<C>, completed: seq<nat>, accepted: nat, slot: nat)
    requires Accounted(ops, completed, accepted) && slot < MAX_QUEUED_OPERATIONS && ops[slot].Some?
    ensures Accounted(ops[slot := None], completed + [ops[slot].value.id], accepted)
  {
  }

  class Device<C(0)> {
    const slots: array<OpSlot<C>>
    ghost var inFlight: InFlight<C>
    ghost var accepted: nat
    ghost var completed: seq<nat>

    /** A slot is used exactly while an operation is in flight in it, and holds
        that operation's callback. */
    ghost predicate Valid()
      reads this, slots
    {
      && slots.Length == MAX_QUEUED_OPERATIONS
      && (forall i :: 0 <= i < MAX_QUEUED_OPERATIONS ==>
          && (slots[i].used <==> inFlight[i].Some?)
          && (inFlight[i].Some? ==> slots[i].callback == inFlight[i].value.callback))
      && Accounted(inFlight, completed, accepted)
    }

    constructor ()
      ensures Valid() && accepted == 0 && fresh(slots)
    {
      slots := new OpSlot<C>[MAX_QUEUED_OPERATIONS](_ => OpSlot(None, false));
      inFlight, accepted, completed := [None, None, None, None], 0, [];
    }

    /** `allocate_slot`: the first free slot, and none only when all are in use. */
    method AllocateSlot() returns (slot: Option<nat>)
      requires slots.Length == MAX_QUEUED_OPERATIONS
      modifies slots
      ensures slot == None ==>
        slots[..] == old(slots[..]) && forall i :: 0 <= i < MAX_QUEUED_OPERATIONS ==> slots[i].used
      ensures slot.Some? ==>
        && slot.value < MAX_QUEUED_OPERATIONS && !old(slots[slot.value].used)
        && slots[slot.value] == old(slots[slot.value]).(used := true)
        && forall i :: 0 <= i < MAX_QUEUED_OPERATIONS && i != slot.value ==> slots[i] == old(slots[i])
    {
      for i := 0 to MAX_QUEUED_OPERATIONS
        invariant slots[..] == old(slots[..])
        invariant forall j :: 0 <= j < i ==> slots[j].used
      {
        assert forall j :: 0 <= j < MAX_QUEUED_OPERATIONS ==> slots[j] == slots[..][j];
        if !slots[i].used {
          slots[i] := slots[i].(used := true);
          return Some(i);
        }
      }
      slot := None;
    }

    /** `hal_uart_write` and `hal_uart_read` of the device with this index: `entry`
        and `submitted` are the outcomes of getting a submission entry and of
        submitting it.  Only a successful submission changes anything: it takes one
        free slot. */
    method Submit(deviceIndex: nat, buffer: bool, callback: Option<C>, entry: bool, submitted: bool)
      returns (status: Status, ghost slot: nat)
      requires Valid()
      modifies this, slots
      ensures Valid() && completed == old(completed)
      ensures status ==
        if DEVICE_COUNT <= deviceIndex then InvalidValue
        else if !buffer then NullParam
        else if forall i :: 0 <= i < MAX_QUEUED_OPERATIONS ==> old(inFlight)[i].Some? then ActionFailed
        else if entry && submitted then Successful
        else SystemError
      ensures status == Successful ==>
        && slot < MAX_QUEUED_OPERATIONS && old(inFlight)[slot] == None
        && inFlight == old(inFlight)[slot := Some(Operation(old(accepted), callback))]
        && accepted == old(accepted) + 1
      ensures status != Successful ==> inFlight == old(inFlight) && accepted == old(accepted)
    {
      slot := 0;
      if deviceIndex >= DEVICE_COUNT {
        return InvalidValue, 0;
      }
      if !buffer {
        return NullParam, 0;
      }
      var s := AllocateSlot();
      if s == None {
        return ActionFailed, 0;
      }
      assert inFlight[s.value] == None;
      slots[s.value] := slots[s.value].(callback := callback);
      if !entry || !submitted {
        slots[s.value] := slots[s.value].(used := false);
        return SystemError, 0;
      }
      SubmitAccounted(inFlight, completed, accepted, s.value, callback);
      inFlight := inFlight[s.value := Some(Operation(accepted, callback))];
      accepted := accepted + 1;
      return Successful, s.value;
    }

    /** The completion thread, for one completion: `succeeded` is res > 0.  The
        callback that runs is the one this operation was submitted with. */
    method Complete(slot: nat, succeeded: bool) returns (called: Option<C>)
      requires Valid() && slot < MAX_QUEUED_OPERATIONS && inFlight[slot].Some?
      modifies this, slots
      ensures Valid() && accepted == old(accepted)
      ensures called == if succeeded then old(inFlight)[slot].value.callback else None
      ensures inFlight == old(inFlight)[slot := None]
      ensures completed == old(completed) + [old(inFlight)[slot].value.id]
    {
      called := None;
      if slots[slot].callback != None && succeeded {
        called := slots[slot].callback;
      }
      slots[slot] := slots[slot].(used := false);
      CompleteAccounted(inFlight, completed, accepted, slot);
      completed := completed + [inFlight[slot].value.id];
      inFlight := inFlight[slot := None];
    }
  }
}
