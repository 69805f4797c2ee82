/**
 * The write path: the `stateChange` handler keeps only the unacknowledged
 * changes, shortens their ids, and `on_command_state` turns a write of
 * `unlocked` or `opened` into at most one action on the lock.
 */
module CommandDispatcher {

  import opened Wrappers
  import opened StatusTranslator

  /** The actions the adapter asks of the lock. */
  datatype Action = Unlock | Lock | Open

  /** A state object as delivered with a change notification (`None` stands for null). */
  datatype StoredState = StoredState(val: Value, ack: bool)

  /** A forwarded write-intent: the short id and the requested value. */
  datatype Command = Command(id: string, val: Value)

  /** Truthiness of a published value, for the two kinds of value the states hold. */
  function Truthy(v: Value): (r: bool)
    ensures v.Bool? ==> (r <==> v.b)
    ensures v.Num? ==> (r <==> v.n != 0)
  {
    match v
    case Bool(b) => b
    case Num(n) => n != 0
  }

  /** `s.slice(start)` for a non-negative start: empty once the start is past the end. */
  function SliceFrom(s: string, start: nat): (r: string)
    ensures start <= |s| ==> |r| == |s| - start && forall i :: 0 <= i < |r| ==> r[i] == s[start + i]
    ensures start >= |s| ==> r == []
  {
    if start <= |s| then s[start..] else []
  }

  /** The full id the host gives a state of this adapter instance: namespace, a dot, the short id. */
  function LongId(namespace: string, id: string): string
  {
    namespace + "." + id
  }

  /**
   * The ack/null filter of the `stateChange` handler: a change goes on only if
   * the state is present and not acknowledged, and its id loses the first
   * `|namespace| + 1` characters.
   */
  function Forward(namespace: string, longId: string, state: Option<StoredState>): (r: Option<Command>)
    ensures r.Some? <==> state.Some? && !state.value.ack
    ensures r.Some? ==> r.value.val == state.value.val
    ensures r.Some? && |namespace| < |longId| ==>
      |r.value.id| == |longId| - |namespace| - 1 &&
      forall i :: 0 <= i < |r.value.id| ==> r.value.id[i] == longId[|namespace| + 1 + i]
    ensures r.Some? && |namespace| >= |longId| ==> r.value.id == []
  {
    match state
    case None => None
    case Some(st) => if st.ack then None else Some(Command(SliceFrom(longId, |namespace| + 1), st.val))
  }

  /** Shortening inverts the host's qualification of ids: any separator character is dropped. */
  lemma ShortIdRoundTrip(namespace: string, sep: char, id: string)
    ensures SliceFrom(namespace + [sep] + id, |namespace| + 1) == id
  {
  }

  /**
   * `on_command_state`: `unlocked` unlocks on a truthy value and locks on a falsy
   * one; `opened` opens on a truthy value and does nothing otherwise; every other
   * id does nothing.
   */
  function OnCommandState(id: string, value: bool): (r: Option<Action>)
    ensures r == Some(Unlock) <==> id == "unlocked" && value
    ensures r == Some(Lock) <==> id == "unlocked" && !value
    ensures r == Some(Open) <==> id == "opened" && value
    ensures r == None <==> (id == "opened" && !value) || (id != "unlocked" && id != "opened")
  {
    if id == "unlocked" then
      if value then Some(Unlock) else Some(Lock)
    else if id == "opened" then
      if value then Some(Open) else None
    else None
  }

  /** The whole `stateChange` handler: the filter, then the dispatcher on the truthiness of the value. */
  function OnStateChange(namespace: string, longId: string, state: Option<StoredState>): (r: Option<Action>)
    ensures r.Some? ==> state.Some? && !state.value.ack
    ensures state.Some? && !state.value.ack ==>
      r == OnCommandState(SliceFrom(longId, |namespace| + 1), Truthy(state.value.val))
  {
    match Forward(namespace, longId, state)
    case None => None
    case Some(cmd) => OnCommandState(cmd.id, Truthy(cmd.val))
  }

  /** A null state, or an acknowledged one, never reaches the lock. */
  lemma FilteredNeverDispatched(namespace: string, longId: string, state: Option<StoredState>)
    requires state.None? || state.value.ack
    ensures OnStateChange(namespace, longId, state) == None
  {
  }

  /** An external, unacknowledged write of a state of this instance dispatches on its short id. */
  lemma ExternalWriteDispatch(namespace: string, id: string, v: Value)
    ensures OnStateChange(namespace, LongId(namespace, id), Some(StoredState(v, false))) == OnCommandState(id, Truthy(v))
  {
  }

  /** Writing `unlocked` from outside issues exactly one unlock (truthy) or one lock (falsy). */
  lemma UnlockedCommand(namespace: string, value: bool)
    ensures OnStateChange(namespace, LongId(namespace, "unlocked"), Some(StoredState(Bool(value), false)))
      == Some(if value then Unlock else Lock)
  {
  }

  /** Writing `opened` from outside opens on true and does nothing on false. */
  lemma OpenedCommand(namespace: string, value: bool)
    ensures OnStateChange(namespace, LongId(namespace, "opened"), Some(StoredState(Bool(value), false)))
      == if value then Some(Open) else None
  {
  }

  /** The read-only states never cause an action, whatever is written to them. */
  lemma ReadOnlyStatesIgnored(namespace: string, id: StateId, v: Value)
    requires id == Active || id == LockState
    ensures OnStateChange(namespace, LongId(namespace, Name(id)), Some(StoredState(v, false))) == None
  {
  }

  /**
   * No feedback loop: the host's echo of any write the status translator makes
   * is acknowledged, so it never reaches the dispatcher.
   */
  lemma OwnWritesNeverDispatched(namespace: string, code: int)
    ensures forall w :: w in StatusWrites(code) ==>
      OnStateChange(namespace, LongId(namespace, Name(w.id)), Some(StoredState(w.val, w.ack))) == None
  {
  }
}
