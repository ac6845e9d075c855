/** The client registry of src/state.rs: who is reachable under (tenant, client id), when a client id connects
    again before its old connection has finished leaving.

    `unregister_client` reads the entry and then removes it, in two operations on the map. The log of an
    execution therefore has two entries for it, and other connections' entries may fall in between. */
module Registry {
  import opened Options

  datatype Key = Key(tenant: string, client: string)

  datatype Op =
    | Register(key: Key, c: nat)
    | Get(key: Key, c: nat)
    | Remove(key: Key, c: nat)

  function Lookup(clients: map<Key, nat>, key: Key): Option<nat> {
    if key in clients then Some(clients[key]) else None
  }

  /** The map, and the connections whose `get` found their own handle. */
  datatype State = State(clients: map<Key, nat>, saw: set<nat>)

  function Apply(s: State, op: Op): State {
    match op
    case Register(key, c) => s.(clients := s.clients[key := c])
    case Get(key, c) => if Lookup(s.clients, key) == Some(c) then s.(saw := s.saw + {c}) else s
    case Remove(key, c) => if c in s.saw then s.(clients := s.clients - {key}) else s
  }

  function Run(ops: seq<Op>): State {
    if ops == [] then State(map[], {}) else Apply(Run(ops[..|ops| - 1]), ops[|ops| - 1])
  }

  /** Each connection registers once, under a number of its own, and then leaves once, under the same key. */
  ghost predicate WellFormed(ops: seq<Op>) {
    ops == [] ||
    (var before, op := ops[..|ops| - 1], ops[|ops| - 1];
     && WellFormed(before)
     && match op
        case Register(_, c) => forall i | 0 <= i < |before| :: before[i].c != c
        case Get(key, c) => Register(key, c) in before && Get(key, c) !in before
        case Remove(key, c) => Get(key, c) in before && Remove(key, c) !in before)
  }

  // ----- What the log says, without the map

  /** The connection that registered last under `key`. */
  function LastRegistered(ops: seq<Op>, key: Key): Option<nat> {
    if ops == [] then None
    else
      var op := ops[|ops| - 1];
      if op.Register? && op.key == key then Some(op.c) else LastRegistered(ops[..|ops| - 1], key)
  }

  /** The connection that should be reachable: the last one to register, until it has unregistered. */
  function Owner(ops: seq<Op>, key: Key): Option<nat> {
    var last := LastRegistered(ops, key);
    if last.Some? && Remove(key, last.value) in ops then None else last
  }

  /** The connections that owned their key when they looked. */
  function OwnedAtGet(ops: seq<Op>): set<nat> {
    if ops == [] then {}
    else
      var before, op := ops[..|ops| - 1], ops[|ops| - 1];
      OwnedAtGet(before) + if op.Get? && Owner(before, op.key) == Some(op.c) then {op.c} else {}
  }

  /** The last entry removes, on the strength of an earlier look, what now belongs to another connection. */
  predicate Evicts(ops: seq<Op>) {
    ops != [] &&
    var before, op := ops[..|ops| - 1], ops[|ops| - 1];
    op.Remove? && op.c in OwnedAtGet(before) && Owner(before, op.key).Some? && Owner(before, op.key) != Some(op.c)
  }

  predicate Clean(ops: seq<Op>) {
    !Evicts(ops) && (ops == [] || Clean(ops[..|ops| - 1]))
  }

  /** At every point of the execution the map holds exactly the owners. */
  ghost predicate Faithful(ops: seq<Op>) {
    && (forall key :: Lookup(Run(ops).clients, key) == Owner(ops, key))
    && (ops == [] || Faithful(ops[..|ops| - 1]))
  }

  lemma {:induction false} LastIsInLog(ops: seq<Op>, key: Key)
    ensures var last := LastRegistered(ops, key); last.Some? ==> Register(key, last.value) in ops
  {
    if ops != [] {
      LastIsInLog(ops[..|ops| - 1], key);
    }
  }

  lemma OwnerStep(before: seq<Op>, op: Op, key: Key)
    requires WellFormed(before + [op])
    ensures Owner(before + [op], key) ==
            if op.Register? && op.key == key then Some(op.c)
            else if op.Remove? && op.key == key && LastRegistered(before, key) == Some(op.c) then None
            else Owner(before, key)
  {
    var ops := before + [op];
    assert ops[..|ops| - 1] == before;
    LastIsInLog(before, key);
    if op.Register? {
      assert forall x | x in before :: x.c != op.c;
    }
  }

  lemma {:induction false} RegisteredOnce(ops: seq<Op>, k1: Key, k2: Key, c: nat)
    requires WellFormed(ops) && Register(k1, c) in ops && Register(k2, c) in ops
    ensures k1 == k2
  {
    var before, op := ops[..|ops| - 1], ops[|ops| - 1];
    if Register(k1, c) in before && Register(k2, c) in before {
      RegisteredOnce(before, k1, k2, c);
    }
  }

  /** While the map has been faithful, the look into it is the look into the log. */
  lemma {:induction false} SawIsOwned(ops: seq<Op>)
    requires ops == [] || Faithful(ops[..|ops| - 1])
    ensures Run(ops).saw == OwnedAtGet(ops)
  {
    if ops != [] {
      SawIsOwned(ops[..|ops| - 1]);
    }
  }

  /** The two-step removal does no harm exactly when no connection removes what by then is another's. */
  lemma {:induction false} FaithfulExactly(ops: seq<Op>)
    requires WellFormed(ops)
    ensures Faithful(ops) <==> Clean(ops)
  {
    if ops != [] {
      var before, op := ops[..|ops| - 1], ops[|ops| - 1];
      FaithfulExactly(before);
      if Faithful(before) {
        SawIsOwned(before);
        StepFaithful(before, op);
        assert before + [op] == ops;
      }
    }
  }

  lemma {:induction false} LooksBeforeRemoving(ops: seq<Op>, key: Key, c: nat)
    requires WellFormed(ops) && Remove(key, c) in ops
    ensures Get(key, c) in ops
  {
    if ops[|ops| - 1] != Remove(key, c) {
      LooksBeforeRemoving(ops[..|ops| - 1], key, c);
    }
  }

  /** A connection that looked and was not the owner had been replaced, and is never the last one again. */
  lemma {:induction false} LookedTooLate(ops: seq<Op>, key: Key, c: nat)
    requires WellFormed(ops) && Get(key, c) in ops && c !in OwnedAtGet(ops)
    ensures LastRegistered(ops, key) != Some(c)
  {
    var before, op := ops[..|ops| - 1], ops[|ops| - 1];
    if op == Get(key, c) {
      if Remove(key, c) in before {
        LooksBeforeRemoving(before, key, c);
      }
    } else {
      LookedTooLate(before, key, c);
    }
  }

  lemma StepFaithful(before: seq<Op>, op: Op)
    requires WellFormed(before + [op]) && Run(before).saw == OwnedAtGet(before)
    requires forall key :: Lookup(Run(before).clients, key) == Owner(before, key)
    ensures (forall key :: Lookup(Run(before + [op]).clients, key) == Owner(before + [op], key))
       <==> !Evicts(before + [op])
  {
    var ops := before + [op];
    assert ops[..|ops| - 1] == before;
    if op.Remove? && op.c !in OwnedAtGet(before) {
      LookedTooLate(before, op.key, op.c);
    }
    forall key ensures Lookup(Run(ops).clients, key) == Owner(ops, key) || (key == op.key && Evicts(ops)) {
      OwnerStep(before, op, key);
    }
    OwnerStep(before, op, op.key);
  }

  // ----- When it is safe

  /** No connection registers under a key while another is between its look and its removal there. */
  ghost predicate Quiet(ops: seq<Op>) {
    ops == [] ||
    (var before, op := ops[..|ops| - 1], ops[|ops| - 1];
     && Quiet(before)
     && (op.Register? ==> forall i | 0 <= i < |before| && before[i].Get? && before[i].key == op.key ::
           Remove(op.key, before[i].c) in before))
  }

  lemma {:induction false} QuietKeepsOwner(ops: seq<Op>, key: Key, c: nat)
    requires WellFormed(ops) && Quiet(ops) && Get(key, c) in ops && Remove(key, c) !in ops && c in OwnedAtGet(ops)
    ensures Owner(ops, key) == Some(c)
  {
    var before, op := ops[..|ops| - 1], ops[|ops| - 1];
    assert before + [op] == ops;
    OwnerStep(before, op, key);
    if op == Get(key, c) {
      if c in OwnedAtGet(before) {
        OwnedLooked(before, c);
        var k :| Get(k, c) in before;
        LooksOnce(ops, key, k, c);
      }
    } else {
      if op.Get? && op.c == c {
        LooksOnce(ops, key, op.key, c);
      }
      QuietKeepsOwner(before, key, c);
    }
  }

  /** Under the right discipline the registry is always right, and so an old connection's late departure
      never removes its successor. */
  lemma {:induction false} QuietIsFaithful(ops: seq<Op>)
    requires WellFormed(ops) && Quiet(ops)
    ensures Faithful(ops)
  {
    FaithfulExactly(ops);
    QuietIsClean(ops);
  }

  lemma {:induction false} QuietIsClean(ops: seq<Op>)
    requires WellFormed(ops) && Quiet(ops)
    ensures Clean(ops)
  {
    if ops != [] {
      var before, op := ops[..|ops| - 1], ops[|ops| - 1];
      QuietIsClean(before);
      if op.Remove? && op.c in OwnedAtGet(before) {
        QuietKeepsOwner(before, op.key, op.c);
      }
    }
  }

  lemma {:induction false} OwnedLooked(ops: seq<Op>, c: nat)
    requires WellFormed(ops) && c in OwnedAtGet(ops)
    ensures exists key :: Get(key, c) in ops
  {
    var before, op := ops[..|ops| - 1], ops[|ops| - 1];
    if c in OwnedAtGet(before) {
      OwnedLooked(before, c);
      var key :| Get(key, c) in before;
      assert Get(key, c) in ops;
    } else {
      assert Get(op.key, c) in ops;
    }
  }

  lemma {:induction false} LooksOnce(ops: seq<Op>, k1: Key, k2: Key, c: nat)
    requires WellFormed(ops) && Get(k1, c) in ops && Get(k2, c) in ops
    ensures k1 == k2
  {
    Looked(ops, k1, c);
    Looked(ops, k2, c);
    RegisteredOnce(ops, k1, k2, c);
  }

  lemma {:induction false} Looked(ops: seq<Op>, key: Key, c: nat)
    requires WellFormed(ops) && Get(key, c) in ops
    ensures Register(key, c) in ops
  {
    if ops[|ops| - 1] != Get(key, c) {
      Looked(ops[..|ops| - 1], key, c);
    }
  }

  // ----- Unregistering in one step

  datatype Act = Join(key: Key, c: nat) | Leave(key: Key, c: nat)

  /** The log when nothing comes between the look and the removal. */
  function Expand(acts: seq<Act>): seq<Op> {
    if acts == [] then []
    else
      var act := acts[|acts| - 1];
      Expand(acts[..|acts| - 1]) +
      match act
      case Join(key, c) => [Register(key, c)]
      case Leave(key, c) => [Get(key, c), Remove(key, c)]
  }

  ghost predicate AllLeft(ops: seq<Op>) {
    forall i | 0 <= i < |ops| && ops[i].Get? :: Remove(ops[i].key, ops[i].c) in ops
  }

  lemma QuietExtends(ops: seq<Op>, op: Op)
    requires Quiet(ops) && (op.Register? ==> AllLeft(ops))
    ensures Quiet(ops + [op])
  {
    assert (ops + [op])[..|ops|] == ops;
  }

  lemma AllLeftExtends(ops: seq<Op>, act: Act)
    requires AllLeft(ops)
    ensures act.Join? ==> AllLeft(ops + [Register(act.key, act.c)])
    ensures act.Leave? ==> AllLeft(ops + [Get(act.key, act.c)] + [Remove(act.key, act.c)])
  {
    if act.Leave? {
      var all := ops + [Get(act.key, act.c)] + [Remove(act.key, act.c)];
      forall i | 0 <= i < |all| && all[i].Get? ensures Remove(all[i].key, all[i].c) in all {
        assert i < |ops| ==> Remove(ops[i].key, ops[i].c) in ops;
        assert all[|all| - 1] == Remove(act.key, act.c);
      }
    }
  }

  lemma {:induction false} ExpandIsQuiet(acts: seq<Act>)
    ensures Quiet(Expand(acts)) && AllLeft(Expand(acts))
  {
    if acts != [] {
      var early, act := Expand(acts[..|acts| - 1]), acts[|acts| - 1];
      ExpandIsQuiet(acts[..|acts| - 1]);
      AllLeftExtends(early, act);
      match act
      case Join(key, c) => QuietExtends(early, Register(key, c));
      case Leave(key, c) =>
        QuietExtends(early, Get(key, c));
        QuietExtends(early + [Get(key, c)], Remove(key, c));
        assert Expand(acts) == early + [Get(key, c)] + [Remove(key, c)];
    }
  }

  /** With the check and the removal in one step, the map holds `c` exactly when `c` registered last under the
      key and has not unregistered. */
  lemma AtomicRegistryIsExact(acts: seq<Act>, key: Key, c: nat)
    requires WellFormed(Expand(acts))
    ensures Lookup(Run(Expand(acts)).clients, key) == Some(c) <==>
            LastRegistered(Expand(acts), key) == Some(c) && Remove(key, c) !in Expand(acts)
  {
    ExpandIsQuiet(acts);
    QuietIsFaithful(Expand(acts));
  }

  // ----- When it is not

  /** The same client connects again between the look and the removal of its old connection, and is then
      online without being reachable. */
  lemma StaleRemoval(key: Key)
    ensures var ops := [Register(key, 1), Get(key, 1), Register(key, 2), Remove(key, 1)];
            WellFormed(ops) && Owner(ops, key) == Some(2) && key !in Run(ops).clients
  {
    var o1 := [Register(key, 1)];
    var o2 := o1 + [Get(key, 1)];
    var o3 := o2 + [Register(key, 2)];
    var o4 := o3 + [Remove(key, 1)];
    assert o1[..0] == [] && o2[..1] == o1 && o3[..2] == o2 && o4[..3] == o3;
    assert WellFormed(o1);
    assert WellFormed(o2);
    assert WellFormed(o3);
    assert Run(o1) == State(map[key := 1], {});
    assert Run(o2) == Apply(Run(o1), Get(key, 1)) == State(map[key := 1], {1});
    assert Run(o3) == Apply(Run(o2), Register(key, 2)) == State(map[key := 2], {1});
    assert LastRegistered(o4, key) == LastRegistered(o3, key) == Some(2);
    assert o4 == [Register(key, 1), Get(key, 1), Register(key, 2), Remove(key, 1)];
  }
}
