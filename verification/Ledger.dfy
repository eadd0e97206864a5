/** The map of unacknowledged updates, shared by every goroutine that sends one.

    updateStatus first has its call accepted by the agent and only then, under the mutex,
    inserts the update, so the two are separate steps. Acknowledgments and re-subscriptions
    are handled by the event loop, between its own calls. */
module Ledger {
  import opened Status
  import opened Protocol

  type Uuid = nat

  datatype Update = Update(sender: Actor, state: TaskState)

  /** `unacked` is the executor's map. `between` holds, for each goroutine inside
      updateStatus, the update whose call was accepted and that is not inserted yet. The rest
      records: `accepted` and `acked` are the agent's view, `early` the updates whose
      acknowledgments all came before their insert. */
  datatype Ledger = Ledger(
    unacked: map<Uuid, Update>,
    between: map<Actor, Uuid>,
    accepted: map<Uuid, Update>,
    acked: set<Uuid>,
    early: set<Uuid>)

  datatype Move =
    | CallAccepted(a: Actor, u: Uuid, state: TaskState)
    | CallRefused(a: Actor)
    | Insert(a: Actor)
    | Acknowledged(u: Uuid)

  function Empty(): Ledger {
    Ledger(map[], map[], map[], {}, {})
  }

  /** UUIDs are unique; the agent acknowledges what it accepted; the event loop handles an
      acknowledgment only while it is not itself inside updateStatus. */
  predicate Possible(l: Ledger, m: Move) {
    match m
    case CallAccepted(a, u, _) => a !in l.between && u !in l.accepted
    case CallRefused(a) => a !in l.between
    case Insert(a) => a in l.between && l.between[a] in l.accepted
    case Acknowledged(u) => Loop !in l.between && u in l.accepted
  }

  predicate IsBetween(l: Ledger, u: Uuid) {
    exists a :: a in l.between && l.between[a] == u
  }

  function Do(l: Ledger, m: Move): Ledger
    requires Possible(l, m)
  {
    match m
    case CallAccepted(a, u, state) =>
      l.(between := l.between[a := u], accepted := l.accepted[u := Update(a, state)])
    case CallRefused(_) => l
    case Insert(a) =>
      var u := l.between[a];
      l.(between := l.between - {a}, unacked := l.unacked[u := l.accepted[u]])
    case Acknowledged(u) =>
      l.(unacked := l.unacked - {u}, acked := l.acked + {u},
         early := if IsBetween(l, u) then l.early + {u} else l.early - {u})
  }

  ghost predicate Plays(l: Ledger, ms: seq<Move>)
    decreases |ms|
  {
    |ms| > 0 ==> Possible(l, ms[0]) && Plays(Do(l, ms[0]), ms[1..])
  }

  ghost function After(l: Ledger, ms: seq<Move>): Ledger
    requires Plays(l, ms)
    decreases |ms|
  {
    if |ms| == 0 then l else After(Do(l, ms[0]), ms[1..])
  }

  /** Everything in the ledger is about accepted updates, and an early acknowledgment is never
      one of the event loop's own updates. */
  ghost predicate Owned(l: Ledger) {
    && (forall a :: a in l.between ==> l.between[a] in l.accepted && l.accepted[l.between[a]].sender == a)
    && l.acked <= l.accepted.Keys
    && (forall u :: u in l.early ==> u in l.acked && l.accepted[u].sender != Loop)
    && (forall u :: u in l.unacked ==> u in l.accepted && l.unacked[u] == l.accepted[u])
  }

  /** An accepted update is in the map exactly if it is not between its call and its insert
      and was not acknowledged after being inserted. */
  predicate InMapIff(l: Ledger, u: Uuid) {
    && (u in l.unacked <==> !IsBetween(l, u) && (u in l.acked ==> u in l.early))
    && (IsBetween(l, u) && u in l.acked ==> u in l.early)
  }

  ghost predicate Books(l: Ledger) {
    Owned(l) && forall u :: u in l.accepted ==> InMapIff(l, u)
  }

  /** Which updates are between call and insert after a move. */
  predicate BetweenAfter(l: Ledger, m: Move, u: Uuid)
    requires Possible(l, m)
  {
    match m
    case CallAccepted(_, v, _) => u == v || IsBetween(l, u)
    case Insert(a) => u != l.between[a] && IsBetween(l, u)
    case _ => IsBetween(l, u)
  }

  lemma BetweenMoves(l: Ledger, m: Move, u: Uuid)
    requires Possible(l, m)
    requires forall a :: a in l.between ==> l.between[a] in l.accepted && l.accepted[l.between[a]].sender == a
    ensures IsBetween(Do(l, m), u) == BetweenAfter(l, m, u)
  {
    var r := Do(l, m);
    if BetweenAfter(l, m, u) {
      if m.CallAccepted? && u == m.u {
        assert r.between[m.a] == u;
      } else {
        var b :| b in l.between && l.between[b] == u;
        assert r.between[b] == u;
      }
    }
  }

  lemma OwnedKept(l: Ledger, m: Move)
    requires Owned(l) && Possible(l, m)
    ensures Owned(Do(l, m))
  {
  }

  lemma InMapKept(l: Ledger, m: Move, u: Uuid)
    requires Owned(l) && Possible(l, m) && u in Do(l, m).accepted
    requires u in l.accepted ==> InMapIff(l, u)
    ensures InMapIff(Do(l, m), u)
  {
    BetweenMoves(l, m, u);
    if u !in l.accepted {
      assert u !in l.unacked && u !in l.acked && !IsBetween(l, u);
    }
  }

  lemma BooksKept(l: Ledger, m: Move)
    requires Books(l) && Possible(l, m)
    ensures Books(Do(l, m))
  {
    OwnedKept(l, m);
    forall u | u in Do(l, m).accepted ensures InMapIff(Do(l, m), u) {
      InMapKept(l, m, u);
    }
  }

  lemma {:induction false} BooksAlways(l: Ledger, ms: seq<Move>)
    requires Books(l) && Plays(l, ms)
    ensures Books(After(l, ms))
    decreases |ms|
  {
    if |ms| == 0 {
    } else {
      BooksKept(l, ms[0]);
      BooksAlways(Do(l, ms[0]), ms[1..]);
    }
  }

  /** updateStatus as a whole, when its call is accepted and nobody interferes. */
  function Updated(l: Ledger, a: Actor, u: Uuid, state: TaskState): Ledger
    requires Possible(l, CallAccepted(a, u, state))
  {
    Do(Do(l, CallAccepted(a, u, state)), Insert(a))
  }

  lemma UpdatedKeeps(l: Ledger, a: Actor, u: Uuid, state: TaskState)
    requires Books(l) && Possible(l, CallAccepted(a, u, state))
    ensures var r := Updated(l, a, u, state);
            && Books(r) && r.unacked == l.unacked[u := Update(a, state)] && r.between == l.between
            && r.accepted == l.accepted[u := Update(a, state)] && r.acked == l.acked && r.early == l.early
  {
    BooksKept(l, CallAccepted(a, u, state));
    BooksKept(Do(l, CallAccepted(a, u, state)), Insert(a));
  }

  /** What the ledger records is what happened: accepted are exactly the updates of the accepted
      calls, each with the sender and state of its call, and acknowledged exactly those that
      were. */
  lemma {:induction false} RecordsAsMoves(l: Ledger, ms: seq<Move>)
    requires Plays(l, ms)
    ensures var r := After(l, ms);
            && (forall u :: u in l.accepted ==> u in r.accepted && r.accepted[u] == l.accepted[u])
            && (forall u :: u in r.accepted && u !in l.accepted ==>
                  CallAccepted(r.accepted[u].sender, u, r.accepted[u].state) in ms)
            && (forall a, u, state :: CallAccepted(a, u, state) in ms ==>
                  u in r.accepted && r.accepted[u] == Update(a, state))
            && (forall u :: u in r.acked <==> u in l.acked || Acknowledged(u) in ms)
    decreases |ms|
  {
    if |ms| == 0 {
    } else {
      RecordsAsMoves(Do(l, ms[0]), ms[1..]);
      assert ms == [ms[0]] + ms[1..];
    }
  }

  /** The updates a goroutine has had accepted and that the agent has not acknowledged. */
  ghost function Outstanding(l: Ledger, a: Actor): set<Uuid> {
    set u | u in l.accepted && l.accepted[u].sender == a && u !in l.acked
  }

  /** What getUnackedUpdates hands to a re-subscription: each update with its UUID. */
  function Snapshot(l: Ledger): set<(Uuid, Update)> {
    l.unacked.Items
  }

  /** In every interleaving the map holds only accepted updates, and an accepted update that
      is not acknowledged is in the map, and in any snapshot taken now, unless its goroutine
      is still between call and insert. */
  lemma NothingLost(ms: seq<Move>)
    requires Plays(Empty(), ms)
    ensures var l := After(Empty(), ms);
            && (forall u :: u in l.unacked ==> u in l.accepted && l.unacked[u] == l.accepted[u])
            && (forall u :: u in l.accepted && u !in l.acked && !IsBetween(l, u) ==>
                  u in l.unacked && (u, l.accepted[u]) in Snapshot(l))
  {
    BooksAlways(Empty(), ms);
  }

  /** For the updates of the event loop itself the map is exact whenever the loop is at its
      head: accepted minus acknowledged. */
  lemma LoopIsExact(ms: seq<Move>)
    requires Plays(Empty(), ms)
    requires Loop !in After(Empty(), ms).between
    ensures var l := After(Empty(), ms);
            (set u | u in l.unacked && l.unacked[u].sender == Loop) == Outstanding(l, Loop)
  {
    BooksAlways(Empty(), ms);
    var l := After(Empty(), ms);
    forall u | u in l.accepted && l.accepted[u].sender == Loop ensures !IsBetween(l, u) {}
  }

  /** For every goroutine: what is in the map without being outstanding is exactly what was
      acknowledged early and inserted afterwards. It is never an update of the event loop. */
  lemma SurplusIsEarly(ms: seq<Move>)
    requires Plays(Empty(), ms)
    ensures var l := After(Empty(), ms);
            && (forall u :: u in l.unacked && u in l.acked <==> u in l.early && !IsBetween(l, u))
            && (forall u :: u in l.early ==> u in l.accepted && l.accepted[u].sender != Loop)
  {
    BooksAlways(Empty(), ms);
  }

  /** Such a surplus does occur: an acknowledgment that overtakes the insert of another
      goroutine is lost, and the update is sent again at every re-subscription. */
  lemma EarlyAckIsResent(u: Uuid, state: TaskState)
    ensures var ms := [CallAccepted(Health, u, state), Acknowledged(u), Insert(Health)];
            && Plays(Empty(), ms)
            && var l := After(Empty(), ms);
               u in l.acked && (u, Update(Health, state)) in Snapshot(l) && l.between == map[]
  {
    var l1 := Do(Empty(), CallAccepted(Health, u, state));
    assert l1.between[Health] == u && IsBetween(l1, u);
    var l2 := Do(l1, Acknowledged(u));
    var l3 := Do(l2, Insert(Health));
    assert u in l3.unacked && l3.unacked[u] == Update(Health, state);
    var ms := [CallAccepted(Health, u, state), Acknowledged(u), Insert(Health)];
    assert ms[1..] == [Acknowledged(u), Insert(Health)];
    assert ms[1..][1..] == [Insert(Health)];
    assert ms[1..][1..][1..] == [];
    assert Plays(l3, []) && After(l3, []) == l3;
    assert Plays(l2, [Insert(Health)]) && After(l2, [Insert(Health)]) == l3;
  }
}
