/** Run-to-completion state machines (src/util/fsm/fsm.c): a transition sends
    EXIT to the current state and ENTRY to the next one, and the handler of that
    ENTRY may itself transition before the outer call returns. */
module Fsm {
  import opened Options

  datatype Event<U> = Init | Entry | Exit | User(event: U)

  /** One call of a state handler. */
  datatype Call<S, U> = Call(state: S, event: Event<U>)

  // ------------------------------------------------------------ bracketing

  /** The calls a transition from `from` to a final state `to` makes, however
      deeply it nests: EXIT of the current state, ENTRY of the next one, strictly
      alternating, each EXIT going to the state entered last. */
  ghost predicate Bracketed<S, U>(calls: seq<Call<S, U>>, from: S, to: S) {
    if |calls| < 2 then calls == [] && from == to
    else
      && calls[0] == Call(from, Exit) && calls[1].event == Entry
      && Bracketed(calls[2..], calls[1].state, to)
  }

  lemma {:induction false} BracketedConcat<S, U>(a: seq<Call<S, U>>, b: seq<Call<S, U>>, from: S, via: S, to: S)
    requires Bracketed(a, from, via) && Bracketed(b, via, to)
    ensures Bracketed(a + b, from, to)
  {
    if a == [] {
      assert a + b == b;
    } else {
      BracketedConcat(a[2..], b, a[1].state, via, to);
      assert (a + b)[2..] == a[2..] + b;
    }
  }

  /** Bracketing call by call: EXIT and ENTRY alternate, each EXIT goes to the
      state the ENTRY before it entered, and the last ENTRY is the final state's. */
  lemma {:induction false} BracketedAlternates<S, U>(calls: seq<Call<S, U>>, from: S, to: S, k: nat)
    requires Bracketed(calls, from, to) && k < |calls|
    ensures calls[k].event == if k % 2 == 0 then Exit else Entry
    ensures k % 2 == 0 ==> calls[k].state == if k == 0 then from else calls[k - 1].state
    ensures k == |calls| - 1 ==> calls[k] == Call(to, Entry)
    decreases k
  {
    if 2 <= k {
      BracketedAlternates(calls[2..], calls[1].state, to, k - 2);
    }
  }

  // ------------------------------------------------------------- semantics

  /** A handler updates the object and may end by asking for a transition; none
      of the handlers here does anything after one. */
  type Handler<!S, !D, !U> = (S, D, Event<U>) -> (D, Option<S>)

  /** Handlers never transition on EXIT, and a transition made on ENTRY goes to a
      state of lower rank. */
  ghost predicate Settles<S(!new), D(!new), U(!new)>(handle: Handler<S, D, U>, rank: S -> nat) {
    && (forall s, d :: handle(s, d, Exit).1 == None)
    && (forall s, d :: var next := handle(s, d, Entry).1; next.Some? ==> rank(next.value) < rank(s))
  }

  datatype Configuration<S, D, U> = Configuration(current: S, data: D, calls: seq<Call<S, U>>)

  ghost function Transition<S(!new), D(!new), U(!new)>(
    handle: Handler<S, D, U>, rank: S -> nat, c: Configuration<S, D, U>, next: S): Configuration<S, D, U>
    requires Settles(handle, rank)
    decreases rank(next)
  {
    var (d, _) := handle(c.current, c.data, Exit);
    var (d', again) := handle(next, d, Entry);
    var entered := Configuration(next, d', c.calls + [Call(c.current, Exit), Call(next, Entry)]);
    if again.Some? then Transition(handle, rank, entered, again.value) else entered
  }

  ghost function Send<S(!new), D(!new), U(!new)>(
    handle: Handler<S, D, U>, rank: S -> nat, c: Configuration<S, D, U>, event: Event<U>): Configuration<S, D, U>
    requires Settles(handle, rank)
  {
    var (d, next) := handle(c.current, c.data, event);
    var called := Configuration(c.current, d, c.calls + [Call(c.current, event)]);
    if next.Some? then Transition(handle, rank, called, next.value) else called
  }

  /** A nested transition terminates after at most one EXIT/ENTRY pair per rank,
      its calls are bracketed, and it ends in the innermost target: the state
      whose own ENTRY asked for nothing more. */
  lemma {:induction false} NestedTransition<S(!new), D(!new), U(!new)>(
    handle: Handler<S, D, U>, rank: S -> nat, c: Configuration<S, D, U>, next: S)
    returns (made: seq<Call<S, U>>, before: D)
    requires Settles(handle, rank)
    ensures var e := Transition(handle, rank, c, next);
      && e.calls == c.calls + made
      && Bracketed(made, c.current, e.current)
      && 2 <= |made| <= 2 * (rank(next) + 1)
      && made[1].state == next
      && handle(e.current, before, Entry) == (e.data, None)
    decreases rank(next)
  {
    var (d, _) := handle(c.current, c.data, Exit);
    var (d', again) := handle(next, d, Entry);
    var pair: seq<Call<S, U>> := [Call(c.current, Exit), Call(next, Entry)];
    if again.Some? {
      var entered := Configuration(next, d', c.calls + pair);
      var rest;
      rest, before := NestedTransition(handle, rank, entered, again.value);
      made := pair + rest;
      BracketedConcat(pair, rest, c.current, next, Transition(handle, rank, entered, again.value).current);
      assert c.calls + pair + rest == c.calls + made;
    } else {
      made, before := pair, d;
      assert pair[2..] == [];
    }
  }

  /** An event and the transitions it leads to bracket their calls. */
  lemma SendBrackets<S(!new), D(!new), U(!new)>(
    handle: Handler<S, D, U>, rank: S -> nat, c: Configuration<S, D, U>, event: Event<U>)
    returns (made: seq<Call<S, U>>)
    requires Settles(handle, rank)
    ensures var e := Send(handle, rank, c, event);
      e.calls == c.calls + [Call(c.current, event)] + made && Bracketed(made, c.current, e.current)
  {
    var (d, next) := handle(c.current, c.data, event);
    made := [];
    if next.Some? {
      var called := Configuration(c.current, d, c.calls + [Call(c.current, event)]);
      var before;
      made, before := NestedTransition(handle, rank, called, next.value);
    }
  }

  /** As `util_fsm_transition` does it: EXIT is sent, the state set, ENTRY sent. */
  lemma TransitionAsSends<S(!new), D(!new), U(!new)>(
    handle: Handler<S, D, U>, rank: S -> nat, c: Configuration<S, D, U>, next: S)
    requires Settles(handle, rank)
    ensures Transition(handle, rank, c, next)
         == Send(handle, rank, Send(handle, rank, c, Exit).(current := next), Entry)
  {
    var exited := Send(handle, rank, c, Exit);
    assert exited.calls + [Call(next, Entry)] == c.calls + [Call(c.current, Exit), Call(next, Entry)];
  }

  // ------------------------------------------------------- the C interface

  /** The FSM struct: the current state and the object its handlers work on. */
  class Machine<S(!new), D(!new), U(!new)> {
    const handle: Handler<S, D, U>
    ghost const rank: S -> nat
    var currentState: S
    var arg: D
    ghost var calls: seq<Call<S, U>>

    ghost predicate Valid() {
      Settles(handle, rank)
    }

    ghost function Now(): Configuration<S, D, U>
      reads this
    {
      Configuration(currentState, arg, calls)
    }

    /** `util_fsm_init`: the initial state receives INIT. */
    constructor (handle: Handler<S, D, U>, ghost rank: S -> nat, state: S, object_: D)
      requires Settles(handle, rank)
      ensures Valid() && this.handle == handle && this.rank == rank
      ensures Now() == Send(handle, rank, Configuration(state, object_, []), Init)
    {
      this.handle, this.rank := handle, rank;
      currentState, arg, calls := state, object_, [];
      new;
      SendEvent(Init);
    }

    method SendEvent(event: Event<U>)
      requires Valid()
      modifies this
      ensures Now() == Send(handle, rank, old(Now()), event)
    {
      var (d, next) := handle(currentState, arg, event);
      arg, calls := d, calls + [Call(currentState, event)];
      if next.Some? {
        TransitionTo(next.value);
      }
    }

    method TransitionTo(next: S)
      requires Valid()
      modifies this
      ensures Now() == Transition(handle, rank, old(Now()), next)
      decreases rank(next)
    {
      var (d, _) := handle(currentState, arg, Exit);
      arg, calls := d, calls + [Call(currentState, Exit)];
      currentState := next;
      var (d', again) := handle(next, arg, Entry);
      arg, calls := d', calls + [Call(next, Entry)];
      assert calls == old(calls) + [Call(old(currentState), Exit), Call(next, Entry)];
      if again.Some? {
        TransitionTo(again.value);
      }
    }
  }
}
