/** The bounded event queue of src/util/queue/queue.c: a ring updated in place
    under its mutex.  The methods are the critical sections; which thread runs
    them when, and the wait on the condition variable, is module Runtime. */
module EventQueue {
  import opened Options
  import opened Ring

  datatype Status = Successful | NullParam | SystemError | ActionFailed

  /** A push is accepted exactly when the queue is not full. */
  function Offered<T>(contents: seq<T>, capacity: nat, x: T): seq<T> {
    if |contents| == capacity then contents else contents + [x]
  }

  class Queue<T(0)> {
    var buffer: array?<T>
    var capacity: nat
    var head: nat
    var tail: nat
    var size: nat
    ghost var freed: bool

    /** The ring is set up; an uninitialised queue has no buffer. */
    ghost predicate Valid()
      reads this, buffer
    {
      buffer != null && !freed ==>
        && 0 < capacity == buffer.Length
        && head < capacity && size <= capacity
        && tail == Slot(head, size, capacity)
    }

    /** The queued elements, oldest first. */
    ghost function Contents(): seq<T>
      requires buffer != null && !freed && Valid()
      reads this, buffer
    {
      Window(buffer[..], head, size)
    }

    /** A Queue struct that has not been through `Init` yet. */
    constructor ()
      ensures buffer == null && !freed && Valid()
    {
      buffer, freed := null, false;
      capacity, head, tail, size := 0, 0, 0, 0;
    }

    /** `memory`, `mutex` and `condition` are the outcomes of the allocation and of
        creating the two primitives.  When one of these cannot be created the
        buffer is given back but the pointer to it stays. */
    method Init(slots: nat, memory: bool, mutex: bool, condition: bool) returns (status: Status)
      requires buffer == null && !freed
      modifies this
      ensures status ==
        if slots == 0 then NullParam
        else if memory && mutex && condition then Successful
        else SystemError
      ensures Valid()
      ensures status == Successful ==>
        buffer != null && fresh(buffer) && !freed && capacity == slots && Contents() == []
      ensures freed <==> 0 < slots && memory && !(mutex && condition)
      ensures buffer == null <==> slots == 0 || !memory
    {
      if slots == 0 {
        return NullParam;
      }
      if !memory {
        return SystemError;
      }
      buffer := new T[slots];
      capacity := slots;
      head, tail, size := 0, 0, 0;
      if !mutex {
        freed := true;
        return SystemError;
      }
      if !condition {
        freed := true;
        return SystemError;
      }
      status := Successful;
    }

    /** The critical section of `util_queue_push`. */
    method Push(element: T) returns (status: Status)
      requires Valid() && !freed
      modifies this`tail, this`size, buffer
      ensures Valid()
      ensures status == NullParam <==> buffer == null
      ensures buffer != null ==>
        && Contents() == Offered(old(Contents()), capacity, element)
        && status == if |old(Contents())| == capacity then ActionFailed else Successful
    {
      if buffer == null {
        return NullParam;
      }
      if size == capacity {
        return ActionFailed;
      }
      NextSlot(tail, capacity);
      WindowPush(buffer[..], head, size, element);
      ghost var filled := buffer[..][tail := element];
      buffer[tail] := element;
      assert buffer[..] == filled;
      tail := (tail + 1) % capacity;
      size := size + 1;
      status := Successful;
    }

    /** The critical section of `util_queue_pop`; on an empty queue the caller
        waits for the signal and tries again. */
    method TryPop() returns (status: Status, element: Option<T>)
      requires Valid() && !freed
      modifies this`head, this`size
      ensures Valid()
      ensures status == NullParam <==> buffer == null
      ensures buffer != null ==>
        && status == Successful
        && (old(Contents()) == [] ==> element == None && Contents() == [])
        && (old(Contents()) != [] ==> element == Some(old(Contents())[0]) && Contents() == old(Contents())[1..])
      ensures buffer == null ==> element == None
    {
      if buffer == null {
        return NullParam, None;
      }
      if size == 0 {
        return Successful, None;
      }
      NextSlot(head, capacity);
      WindowPop(buffer[..], head, size);
      element := Some(buffer[head]);
      head := (head + 1) % capacity;
      size := size - 1;
      status := Successful;
    }
  }
}
