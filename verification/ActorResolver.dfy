/** One actor per wallet address, under any interleaving of resolutions (`actor-resolver.ts`). */
module ActorResolver {
  import opened Common
  import opened CanonicalJson
  import opened HashPreimages

  /** Actors are named by position; `owner` is the unique index over wallet identities. */
  datatype Db = Db(actors: nat, owner: map<Text, nat>)

  datatype Pc = Start | Inserting | Lost | Resolved(actor: nat) | Failed

  datatype Caller = Caller(address: Text, pc: Pc)

  datatype World = World(db: Db, callers: seq<Caller>)

  datatype Event =
    | Call(address: Text)
    | Look(caller: nat)
    | Insert(caller: nat)
    | LookAgain(caller: nat)
    | Crash(caller: nat)

  function Key(c: Caller): Text { NormalizeAddress(c.address) }

  /** Actor and identity are created in one write, or not at all when the identity exists. */
  function WithActor(db: Db, key: Text): Db { Db(db.actors + 1, db.owner[key := db.actors]) }

  function At(w: World, i: nat, pc: Pc): World
    requires i < |w.callers|
  {
    w.(callers := w.callers[i := w.callers[i].(pc := pc)])
  }

  function CallerStep(w: World, e: Event, i: nat): World
    requires i < |w.callers|
  {
    var c := w.callers[i];
    var known := Key(c) in w.db.owner;
    match e
    case Look(_) =>
      if c.pc != Start then w else if known then At(w, i, Resolved(w.db.owner[Key(c)])) else At(w, i, Inserting)
    case Insert(_) =>
      if c.pc != Inserting then w
      else if known then At(w, i, Lost)
      else At(w.(db := WithActor(w.db, Key(c))), i, Resolved(w.db.actors))
    case LookAgain(_) =>
      if c.pc != Lost then w else if known then At(w, i, Resolved(w.db.owner[Key(c)])) else At(w, i, Failed)
    case Crash(_) => if c.pc.Resolved? then w else At(w, i, Failed)
    case Call(_) => w
  }

  function Step(w: World, e: Event): World {
    if e.Call? then w.(callers := w.callers + [Caller(e.address, Start)])
    else if e.caller < |w.callers| then CallerStep(w, e, e.caller)
    else w
  }

  /** Every actor is reached by exactly one address. */
  ghost predicate DbOk(db: Db) {
    && (forall k | k in db.owner :: db.owner[k] < db.actors)
    && (forall j, k | j in db.owner && k in db.owner && db.owner[j] == db.owner[k] :: j == k)
    && (forall a: nat | a < db.actors :: Reached(db, a))
  }

  ghost predicate Reached(db: Db, actor: nat) { exists k :: k in db.owner && db.owner[k] == actor }

  predicate CallerOk(db: Db, c: Caller) {
    && (c.pc.Resolved? ==> Key(c) in db.owner && db.owner[Key(c)] == c.pc.actor)
    && (c.pc.Lost? ==> Key(c) in db.owner)
  }

  ghost predicate WorldOk(w: World) {
    DbOk(w.db) && forall j | 0 <= j < |w.callers| :: CallerOk(w.db, w.callers[j])
  }

  lemma WithActorOk(db: Db, key: Text)
    requires DbOk(db) && key !in db.owner
    ensures DbOk(WithActor(db, key))
  {
    var db' := WithActor(db, key);
    forall a: nat | a < db'.actors ensures Reached(db', a) {
      if a == db.actors {
        assert db'.owner[key] == a;
      } else {
        assert Reached(db, a);
        var k :| k in db.owner && db.owner[k] == a;
        assert k in db'.owner && db'.owner[k] == a;
      }
    }
  }

  lemma StepOk(w: World, e: Event)
    requires WorldOk(w)
    ensures WorldOk(Step(w, e))
  {
    hide NormalizeAddress, DbOk;
    if e.Insert? && e.caller < |w.callers| && w.callers[e.caller].pc == Inserting {
      var c := w.callers[e.caller];
      if Key(c) !in w.db.owner {
        WithActorOk(w.db, Key(c));
        forall j | 0 <= j < |w.callers| && j != e.caller ensures CallerOk(WithActor(w.db, Key(c)), w.callers[j]) {
          assert CallerOk(w.db, w.callers[j]);
        }
      }
    }
  }

  function Run(events: seq<Event>): World {
    if events == [] then World(Db(0, map[]), []) else Step(Run(events[..|events| - 1]), events[|events| - 1])
  }

  lemma {:induction false} RunOk(events: seq<Event>)
    ensures WorldOk(Run(events))
  {
    if events != [] {
      RunOk(events[..|events| - 1]);
      StepOk(Run(events[..|events| - 1]), events[|events| - 1]);
    }
  }

  /** All resolutions of one address, however spelt, answer one actor; different addresses, different actors. */
  lemma OneActorPerAddress(events: seq<Event>, i: nat, j: nat)
    requires i < |Run(events).callers| && j < |Run(events).callers|
    requires Run(events).callers[i].pc.Resolved? && Run(events).callers[j].pc.Resolved?
    ensures
      var c, d := Run(events).callers[i], Run(events).callers[j];
      NormalizeAddress(c.address) == NormalizeAddress(d.address) <==> c.pc.actor == d.pc.actor
  {
    hide Run, NormalizeAddress;
    RunOk(events);
    var w := Run(events);
    assert CallerOk(w.db, w.callers[i]) && CallerOk(w.db, w.callers[j]);
  }

  /** Two resolved addresses share an actor exactly when they agree up to outer white space and letter case. */
  lemma OneActorPerSpelling(events: seq<Event>, c: nat, d: nat, i: nat, j: nat, k: nat, l: nat)
    requires c < |Run(events).callers| && d < |Run(events).callers|
    requires Run(events).callers[c].pc.Resolved? && Run(events).callers[d].pc.Resolved?
    requires Inner(Run(events).callers[c].address, i, j) && Inner(Run(events).callers[d].address, k, l)
    ensures
      var a, b := Run(events).callers[c], Run(events).callers[d];
      a.pc.actor == b.pc.actor <==> SameLetters(a.address[i..j], b.address[k..l])
  {
    hide Run;
    OneActorPerAddress(events, c, d);
    NormalizeExact(Run(events).callers[c].address, Run(events).callers[d].address, i, j, k, l);
  }

  /** No resolution leaves behind an actor that nothing leads to. */
  lemma NoOrphans(events: seq<Event>, actor: nat)
    requires actor < Run(events).db.actors
    ensures exists address :: address in Run(events).db.owner && Run(events).db.owner[address] == actor
  {
    RunOk(events);
    assert Reached(Run(events).db, actor);
  }

  // ---- turns, and a resolution that nobody disturbs ----

  /** The stage a caller is at when an event is its turn. */
  predicate InTurn(pc: Pc, e: Event) {
    match e
    case Look(_) => pc == Start
    case Insert(_) => pc == Inserting
    case LookAgain(_) => pc == Lost
    case Crash(_) => !pc.Resolved? && pc != Failed
    case Call(_) => false
  }

  /** In turn the caller moves, and nobody else does; out of turn nothing happens to anyone or to the tables. */
  lemma TurnsExact(w: World, e: Event)
    requires !e.Call?
    ensures
      var t := Step(w, e);
      && |t.callers| == |w.callers|
      && (forall j | 0 <= j < |w.callers| && j != e.caller :: t.callers[j] == w.callers[j])
      && (e.caller < |w.callers| ==>
            && t.callers[e.caller].address == w.callers[e.caller].address
            && (t.callers[e.caller].pc != w.callers[e.caller].pc <==> InTurn(w.callers[e.caller].pc, e)))
      && (e.caller >= |w.callers| || !InTurn(w.callers[e.caller].pc, e) ==> t == w)
  {
    hide NormalizeAddress;
    if e.caller < |w.callers| { assert At(w, e.caller, w.callers[e.caller].pc) == w; }
  }

  /** A resolved call keeps its actor for the rest of the run. */
  lemma {:induction false} ResolvedForGood(events: seq<Event>, k: nat, i: nat)
    requires k <= |events| && i < |Run(events[..k]).callers| && Run(events[..k]).callers[i].pc.Resolved?
    ensures i < |Run(events).callers| && Run(events).callers[i] == Run(events[..k]).callers[i]
  {
    hide CallerStep;
    if k == |events| {
      assert events[..k] == events;
    } else {
      var init, e := events[..|events| - 1], events[|events| - 1];
      assert init[..k] == events[..k];
      ResolvedForGood(init, k, i);
      if !e.Call? { TurnsExact(Run(init), e); }
    }
  }

  lemma RunStep(events: seq<Event>, e: Event)
    ensures Run(events + [e]) == Step(Run(events), e)
  {
    assert (events + [e])[..|events|] == events;
  }

  /** The caller that lost the race is answered with the winner's actor, at whatever point of whatever run. */
  lemma LoserFinds(events: seq<Event>, i: nat)
    requires i < |Run(events).callers| && Run(events).callers[i].pc == Lost
    ensures
      var w, t := Run(events), Run(events + [LookAgain(i)]);
      && NormalizeAddress(w.callers[i].address) in w.db.owner && t.db == w.db && i < |t.callers|
      && t.callers[i].pc == Resolved(w.db.owner[NormalizeAddress(w.callers[i].address)])
  {
    hide NormalizeAddress;
    RunOk(events);
    assert CallerOk(Run(events).db, Run(events).callers[i]);
    RunStep(events, LookAgain(i));
  }

  /** Whoever is about to insert is answered with the address's owner, whether it wins the race or loses it. */
  lemma RaceResolved(events: seq<Event>, i: nat)
    requires i < |Run(events).callers| && Run(events).callers[i].pc == Inserting
    ensures
      var key, t := NormalizeAddress(Run(events).callers[i].address), Run(events + [Insert(i)] + [LookAgain(i)]);
      && key in t.db.owner && i < |t.callers| && t.callers[i].pc == Resolved(t.db.owner[key])
      && (key in Run(events).db.owner ==> t.db == Run(events).db)
  {
    hide NormalizeAddress, Run;
    var inserted := events + [Insert(i)];
    RunStep(events, Insert(i));
    RunStep(inserted, LookAgain(i));
  }

  /** An undisturbed call: the owner of a known address, and for an unknown one a new actor that owns it. */
  lemma UndisturbedResolution(events: seq<Event>, address: Text)
    ensures
      var w, i, key := Run(events), |Run(events).callers|, NormalizeAddress(address);
      var t := Run(events + [Call(address)] + [Look(i)] + [Insert(i)]);
      && i < |t.callers|
      && if key in w.db.owner then t.db == w.db && t.callers[i].pc == Resolved(w.db.owner[key])
         else t.db == Db(w.db.actors + 1, w.db.owner[key := w.db.actors]) && t.callers[i].pc == Resolved(w.db.actors)
  {
    hide NormalizeAddress, Run;
    var i := |Run(events).callers|;
    var called := events + [Call(address)];
    RunStep(events, Call(address));
    var looked := called + [Look(i)];
    RunStep(called, Look(i));
    RunStep(looked, Insert(i));
  }

  class ActorTable {
    var actors: nat
    var owner: map<Text, nat>

    ghost function Contents(): Db
      reads this
    {
      Db(actors, owner)
    }

    constructor ()
      ensures DbOk(Contents()) && actors == 0
    {
      actors, owner := 0, map[];
    }

    /** Find, else create actor and identity together. */
    method ResolveActorForWallet(address: Text) returns (actor: nat)
      requires DbOk(Contents())
      modifies this
      ensures DbOk(Contents())
      ensures NormalizeAddress(address) in owner && owner[NormalizeAddress(address)] == actor
      ensures Contents() ==
        if NormalizeAddress(address) in old(owner) then old(Contents())
        else WithActor(old(Contents()), NormalizeAddress(address))
    {
      hide NormalizeAddress, DbOk;
      var key := NormalizeAddress(address);
      if key in owner { return owner[key]; }
      WithActorOk(Contents(), key);
      actor := actors;
      owner, actors := owner[key := actor], actors + 1;
    }
  }
}
