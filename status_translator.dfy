/** The status codes the lock reports, as declared for the `lock_state` state. */
module LockStatus {

  const LOCKED: int := 0
  const ACTIVE: int := 1
  const UNLOCKED: int := 2
  const OPEN: int := 4

  /** ACTIVE is the only transient code; every other value, listed or not, is handled as settled. */
  datatype Category = Transient | Settled

  function CategoryOf(code: int): Category
  {
    if code == ACTIVE then Transient else Settled
  }
}

/**
 * The `status_change` handler: every status event of the lock is turned into
 * acknowledged writes of the four published states `active`, `lock_state`,
 * `opened` and `unlocked`.
 */
module StatusTranslator {

  import opened Wrappers
  import opened LockStatus

  /** The four states the adapter publishes in its namespace. */
  datatype StateId = Active | LockState | Opened | Unlocked

  /** The short id under which each state is registered. */
  function Name(id: StateId): string
  {
    match id
    case Active => "active"
    case LockState => "lock_state"
    case Opened => "opened"
    case Unlocked => "unlocked"
  }

  /** A published value: the states hold booleans, except `lock_state`, which holds a number. */
  datatype Value = Bool(b: bool) | Num(n: int)

  /** The declared type of each state: `lock_state` is a number, the other three are booleans. */
  predicate Fits(id: StateId, v: Value)
  {
    if id == LockState then v.Num? else v.Bool?
  }

  /** One `setState` call: the state written, the value and the ack flag. */
  datatype Write = Write(id: StateId, val: Value, ack: bool)

  predicate AllFit(ws: seq<Write>)
  {
    forall i :: 0 <= i < |ws| ==> Fits(ws[i].id, ws[i].val)
  }

  /** The values currently held by the four published states. */
  datatype Published = Published(active: bool, lockState: int, doorOpened: bool, unlocked: bool)

  /** A door that is open is never reported as locked. */
  predicate OpenedImpliesUnlocked(p: Published)
  {
    p.doorOpened ==> p.unlocked
  }

  /** What one write does to the published values: it replaces the one state it names. */
  function ApplyWrite(p: Published, w: Write): Published
    requires Fits(w.id, w.val)
  {
    match w.id
    case Active => p.(active := w.val.b)
    case LockState => p.(lockState := w.val.n)
    case Opened => p.(doorOpened := w.val.b)
    case Unlocked => p.(unlocked := w.val.b)
  }

  /** The published values after a sequence of writes, applied in order. */
  function ApplyAll(p: Published, ws: seq<Write>): Published
    requires AllFit(ws)
    decreases |ws|
  {
    if ws == [] then p else ApplyAll(ApplyWrite(p, ws[0]), ws[1..])
  }

  /**
   * The `setState` calls one status event makes, in the order the handler makes
   * them: `active` and `lock_state` always, then `opened` and `unlocked` unless
   * the code is ACTIVE.
   */
  function StatusWrites(code: int): (ws: seq<Write>)
    ensures AllFit(ws)
    ensures forall i :: 0 <= i < |ws| ==> ws[i].ack
    ensures |ws| == if code == ACTIVE then 2 else 4
    ensures ws[0] == Write(Active, Bool(code == ACTIVE), true)
    ensures ws[1] == Write(LockState, Num(code), true)
    ensures code != ACTIVE ==>
      ws[2] == Write(Opened, Bool(code == OPEN), true) &&
      ws[3] == Write(Unlocked, Bool(code == UNLOCKED || code == OPEN), true)
    ensures (set w | w in ws :: w.id) ==
      if code == ACTIVE then {Active, LockState} else {Active, LockState, Opened, Unlocked}
  {
    [Write(Active, Bool(code == ACTIVE), true), Write(LockState, Num(code), true)] +
    match CategoryOf(code)
    case Transient => []
    case Settled =>
      [Write(Opened, Bool(code == OPEN), true), Write(Unlocked, Bool(code == UNLOCKED || code == OPEN), true)]
  }

  /**
   * The published values after one status event: the effect of its writes.
   * `active` and `lock_state` always mirror the code; `opened` and `unlocked`
   * are derived from a settled code and kept as they were while the lock is ACTIVE.
   */
  function Translate(p: Published, code: int): (r: Published)
    ensures r.active == (code == ACTIVE)
    ensures r.lockState == code
    ensures code != ACTIVE ==> r.doorOpened == (code == OPEN) && r.unlocked == (code == UNLOCKED || code == OPEN)
    ensures code == ACTIVE ==> r.doorOpened == p.doorOpened && r.unlocked == p.unlocked
  {
    var ws := StatusWrites(code);
    var p1 := ApplyWrite(ApplyWrite(p, ws[0]), ws[1]);
    assert ApplyAll(p, ws) == ApplyAll(p1, ws[2..]) by {
      assert ws[1..][0] == ws[1] && ws[1..][1..] == ws[2..];
    }
    assert code != ACTIVE ==> ApplyAll(p1, ws[2..]) == ApplyWrite(ApplyWrite(p1, ws[2]), ws[3]) by {
      if code != ACTIVE {
        var rest := ws[2..];
        var p2 := ApplyWrite(p1, ws[2]);
        assert rest[0] == ws[2] && rest[1..][0] == ws[3] && rest[1..][1..] == [];
        assert ApplyAll(p1, rest) == ApplyAll(p2, rest[1..]);
        assert ApplyAll(p2, rest[1..]) == ApplyAll(ApplyWrite(p2, ws[3]), []);
      }
    }
    ApplyAll(p, ws)
  }

  /** Translating the same event twice leaves the values as translating it once. */
  lemma TranslateIdempotent(p: Published, code: int)
    ensures Translate(Translate(p, code), code) == Translate(p, code)
  {
  }

  /** Every status event keeps `opened ==> unlocked`; a settled one establishes it outright. */
  lemma TranslatePreservesInvariant(p: Published, code: int)
    ensures OpenedImpliesUnlocked(p) ==> OpenedImpliesUnlocked(Translate(p, code))
    ensures code != ACTIVE ==> OpenedImpliesUnlocked(Translate(p, code))
  {
  }

  /** The published values after a stream of status events, delivered in order. */
  function Replay(p: Published, codes: seq<int>): Published
    decreases |codes|
  {
    if codes == [] then p else Translate(Replay(p, codes[..|codes| - 1]), codes[|codes| - 1])
  }

  /** The most recent settled code of a stream, if any. */
  function LastSettled(codes: seq<int>): (r: Option<int>)
    ensures r.None? <==> forall i :: 0 <= i < |codes| ==> codes[i] == ACTIVE
    ensures r.Some? ==> r.value != ACTIVE
    ensures r.Some? ==>
      exists k :: 0 <= k < |codes| && codes[k] == r.value && forall j :: k < j < |codes| ==> codes[j] == ACTIVE
    decreases |codes|
  {
    if codes == [] then None
    else if codes[|codes| - 1] != ACTIVE then Some(codes[|codes| - 1])
    else LastSettled(codes[..|codes| - 1])
  }

  /**
   * After any stream of events, `active` and `lock_state` reflect the last event,
   * while `opened` and `unlocked` reflect the last settled event, or are what they
   * were before the stream if every event in it was ACTIVE.
   */
  lemma {:induction false} ReplayOutcome(p: Published, codes: seq<int>)
    ensures codes != [] ==>
      Replay(p, codes).active == (codes[|codes| - 1] == ACTIVE) && Replay(p, codes).lockState == codes[|codes| - 1]
    ensures codes == [] ==> Replay(p, codes) == p
    ensures match LastSettled(codes)
      case None => Replay(p, codes).doorOpened == p.doorOpened && Replay(p, codes).unlocked == p.unlocked
      case Some(c) => Replay(p, codes).doorOpened == (c == OPEN) && Replay(p, codes).unlocked == (c == UNLOCKED || c == OPEN)
    decreases |codes|
  {
    if codes != [] && codes[|codes| - 1] == ACTIVE {
      ReplayOutcome(p, codes[..|codes| - 1]);
    }
  }

  /** No stream of events, whatever its codes, breaks `opened ==> unlocked`. */
  lemma {:induction false} ReplayPreservesInvariant(p: Published, codes: seq<int>)
    requires OpenedImpliesUnlocked(p)
    ensures OpenedImpliesUnlocked(Replay(p, codes))
    decreases |codes|
  {
    if codes != [] {
      ReplayPreservesInvariant(p, codes[..|codes| - 1]);
      TranslatePreservesInvariant(Replay(p, codes[..|codes| - 1]), codes[|codes| - 1]);
    }
  }

  /** LOCKED, then ACTIVE, then UNLOCKED ends unlocked and closed, whatever came before. */
  lemma UnlockScenario(p: Published)
    ensures Replay(p, [LOCKED, ACTIVE, UNLOCKED]) == Published(false, UNLOCKED, false, true)
  {
  }

  /** OPEN, then ACTIVE twice, keeps the open door and the unlocked latch of the OPEN event. */
  lemma OpenThenActiveScenario(p: Published)
    ensures Replay(p, [OPEN, ACTIVE, ACTIVE]) == Published(true, ACTIVE, true, true)
  {
    assert [OPEN, ACTIVE, ACTIVE][..2] == [OPEN, ACTIVE];
    assert [OPEN, ACTIVE][..1] == [OPEN];
    assert [OPEN][..0] == [];
    assert Replay(p, [OPEN]) == Published(false, OPEN, true, true);
    assert Replay(p, [OPEN, ACTIVE]) == Published(true, ACTIVE, true, true);
  }

  /**
   * The adapter's published states, updated in place, together with the log of
   * every `setState` call made so far (the host echoes each back as a state change).
   */
  class Store {
    var active: bool
    var lockState: int
    var doorOpened: bool  // the `opened` state
    var unlocked: bool
    var log: seq<Write>

    function Snapshot(): Published
      reads this
    {
      Published(active, lockState, doorOpened, unlocked)
    }

    /** A store holding whatever values the host already had for the four states. */
    constructor (initial: Published)
      ensures Snapshot() == initial && log == []
    {
      active, lockState, doorOpened, unlocked := initial.active, initial.lockState, initial.doorOpened, initial.unlocked;
      log := [];
    }

    /** `setState(id, {val, ack})`: replaces the value of one state and records the call. */
    method SetState(id: StateId, v: Value, ack: bool)
      requires Fits(id, v)
      modifies this
      ensures Snapshot() == ApplyWrite(old(Snapshot()), Write(id, v, ack))
      ensures log == old(log) + [Write(id, v, ack)]
    {
      match id {
        case Active => active := v.b;
        case LockState => lockState := v.n;
        case Opened => doorOpened := v.b;
        case Unlocked => unlocked := v.b;
      }
      log := log + [Write(id, v, ack)];
    }

    /** The `status_change` handler, for any code the lock reports. */
    method OnStatusChange(code: int)
      modifies this
      ensures Snapshot() == Translate(old(Snapshot()), code)
      ensures log == old(log) + StatusWrites(code)
      ensures active == (code == ACTIVE) && lockState == code
      ensures code != ACTIVE ==> doorOpened == (code == OPEN) && unlocked == (code == UNLOCKED || code == OPEN)
      ensures code == ACTIVE ==> doorOpened == old(doorOpened) && unlocked == old(unlocked)
    {
      SetState(Active, Bool(code == ACTIVE), true);
      SetState(LockState, Num(code), true);
      if code != ACTIVE {
        SetState(Opened, Bool(code == OPEN), true);
        SetState(Unlocked, Bool(code == UNLOCKED || code == OPEN), true);
      }
    }
  }

  /** Two status events on a fresh store, seen only through the handler's contract. */
  method UnlockAfterActive(initial: Published) returns (r: Published)
    ensures r == Published(false, UNLOCKED, false, true)
  {
    var store := new Store(initial);
    store.OnStatusChange(ACTIVE);
    store.OnStatusChange(UNLOCKED);
    r := store.Snapshot();
  }
}
