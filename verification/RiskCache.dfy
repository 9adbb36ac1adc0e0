/** The risk cache: per-wallet and per-cluster copies, and the member index that evicts them (`risk-cache.ts`). */
module RiskCache {
  import opened Common
  import opened CapabilityTypes

  datatype Risk = Risk(pendingReview: bool, clusterId: Option<string>, score: real)

  datatype Entry = Entry(risk: Risk, expiresAt: int)

  datatype Index = Index(wallets: set<string>, expiresAt: int)

  /** The keys held by the store, by kind, and its clock in seconds. */
  datatype Store = Store(
    wallets: map<string, Entry>, clusters: map<string, Entry>, members: map<string, Index>, now: int)

  predicate IsHex(c: char) { '0' <= c <= '9' || 'a' <= c <= 'f' || 'A' <= c <= 'F' }

  /** An address, as opposed to a cluster id. */
  predicate IsWalletAddress(id: string) {
    3 <= |id| <= 66 && id[0] == '0' && id[1] == 'x' && forall i | 2 <= i < |id| :: IsHex(id[i])
  }

  /** The cluster an assessment belongs to, if any; an empty id is none. */
  predicate Names(risk: Risk, c: string) { risk.clusterId == Some(c) && c != "" }

  function Lookup(s: Store, wallet: string): Option<Entry> {
    var w := ToLower(wallet);
    if w in s.wallets && s.now < s.wallets[w].expiresAt then Some(s.wallets[w]) else None
  }

  function ClusterLookup(s: Store, c: string): Option<Entry> {
    if c in s.clusters && s.now < s.clusters[c].expiresAt then Some(s.clusters[c]) else None
  }

  function MembersOf(s: Store, c: string): set<string> {
    if c in s.members && s.now < s.members[c].expiresAt then s.members[c].wallets else {}
  }

  // ---- operations on the store ----

  function Written(s: Store, wallet: string, risk: Risk, ttl: nat): Store {
    if risk.pendingReview then s
    else
      var w, entry := ToLower(wallet), Entry(risk, s.now + ttl);
      var kept := s.(wallets := s.wallets[w := entry]);
      if risk.clusterId.None? || risk.clusterId.value == "" then kept
      else
        var c := risk.clusterId.value;
        kept.(clusters := s.clusters[c := entry],
              members := s.members[c := Index(MembersOf(s, c) + {w}, s.now + 2 * ttl)])
  }

  /** The cluster a wallet's live entry names. */
  function ClusterOf(s: Store, wallet: string): Option<string> {
    var hit := Lookup(s, wallet);
    if hit.Some? && hit.value.risk.clusterId.Some? && hit.value.risk.clusterId.value != ""
    then hit.value.risk.clusterId else None
  }

  /** The wallets whose risk is now unknown. */
  function Affected(s: Store, id: string): set<string> {
    if IsWalletAddress(id) then
      {ToLower(id)} + (if ClusterOf(s, id).Some? then MembersOf(s, ClusterOf(s, id).value) else {})
    else MembersOf(s, id)
  }

  function Evicted(s: Store, id: string): set<string> {
    if !IsWalletAddress(id) then {id}
    else if ClusterOf(s, id).Some? then {ClusterOf(s, id).value}
    else {}
  }

  function Invalidated(s: Store, id: string): Store {
    s.(wallets := s.wallets - Affected(s, id),
       clusters := s.clusters - Evicted(s, id),
       members := s.members - Evicted(s, id))
  }

  // ---- the index outlives what it indexes ----

  /** The index of `c` is live as long as an entry that expires at `t`, and lists `w`. */
  predicate Listed(s: Store, c: string, w: string, t: int) {
    c in s.members && w in s.members[c].wallets && t <= s.members[c].expiresAt
  }

  ghost predicate Indexed(s: Store) {
    && (forall w, c | w in s.wallets && s.now < s.wallets[w].expiresAt && Names(s.wallets[w].risk, c) ::
          Listed(s, c, w, s.wallets[w].expiresAt))
  }

  /** No entry is pending, none outlives a full lifetime from now, and every index reaches at most two. */
  ghost predicate Bounded(s: Store, ttl: nat) {
    && (forall w | w in s.wallets :: !s.wallets[w].risk.pendingReview && s.wallets[w].expiresAt <= s.now + ttl)
    && (forall c | c in s.members :: s.members[c].expiresAt <= s.now + 2 * ttl)
  }

  ghost predicate Sound(s: Store, ttl: nat) { Indexed(s) && Bounded(s, ttl) }

  lemma WrittenBounded(s: Store, wallet: string, risk: Risk, ttl: nat)
    requires Bounded(s, ttl)
    ensures Bounded(Written(s, wallet, risk, ttl), ttl)
  {
  }

  lemma WrittenIndexed(s: Store, wallet: string, risk: Risk, ttl: nat)
    requires Sound(s, ttl)
    ensures Indexed(Written(s, wallet, risk, ttl))
  {
    var s', w := Written(s, wallet, risk, ttl), ToLower(wallet);
    if !risk.pendingReview {
      forall x, c | x in s'.wallets && s'.now < s'.wallets[x].expiresAt && Names(s'.wallets[x].risk, c)
        ensures Listed(s', c, x, s'.wallets[x].expiresAt)
      {
        if x != w { assert Listed(s, c, x, s.wallets[x].expiresAt); }
      }
    }
  }

  /** Writing keeps the index ahead of every entry it is needed to evict. */
  lemma WrittenSound(s: Store, wallet: string, risk: Risk, ttl: nat)
    requires Sound(s, ttl)
    ensures Sound(Written(s, wallet, risk, ttl), ttl)
  {
    WrittenBounded(s, wallet, risk, ttl);
    WrittenIndexed(s, wallet, risk, ttl);
  }

  /** A live entry naming a cluster is found through the cluster's live index. */
  lemma LiveMember(s: Store, wallet: string, c: string)
    requires Indexed(s) && ClusterOf(s, wallet) == Some(c)
    ensures ToLower(wallet) in MembersOf(s, c)
    ensures Lookup(s, wallet).value.expiresAt <= s.members[c].expiresAt
  {
    var w := ToLower(wallet);
    assert Listed(s, c, w, s.wallets[w].expiresAt);
  }

  lemma {:induction false} LowerTwice(w: string)
    ensures ToLower(ToLower(w)) == ToLower(w)
  {
  }

  /** Deleting keeps the index ahead: what is still live and named was not evicted with its index. */
  lemma InvalidatedSound(s: Store, id: string, ttl: nat)
    requires Sound(s, ttl)
    ensures Sound(Invalidated(s, id), ttl)
  {
    var s' := Invalidated(s, id);
    forall x, c | x in s'.wallets && s'.now < s'.wallets[x].expiresAt && Names(s'.wallets[x].risk, c)
      ensures Listed(s', c, x, s'.wallets[x].expiresAt)
    {
      assert Listed(s, c, x, s.wallets[x].expiresAt);
    }
  }

  lemma TickSound(s: Store, later: int, ttl: nat)
    requires Sound(s, ttl) && s.now <= later
    ensures Sound(s.(now := later), ttl)
  {
    var s' := s.(now := later);
    forall x, c | x in s'.wallets && s'.now < s'.wallets[x].expiresAt && Names(s'.wallets[x].risk, c)
      ensures Listed(s', c, x, s'.wallets[x].expiresAt)
    {
      assert Listed(s, c, x, s.wallets[x].expiresAt);
    }
  }

  // ---- what an invalidation reaches ----

  /** The message concerns cluster `c`: it names it, or a wallet whose live entry does. */
  predicate Concerns(s: Store, id: string, c: string) {
    if IsWalletAddress(id) then ClusterOf(s, id) == Some(c) else id == c
  }

  /** After an invalidation concerning a cluster, nothing cached for it is left to serve. */
  lemma InvalidationReaches(s: Store, id: string, c: string, ttl: nat)
    requires Sound(s, ttl) && Concerns(s, id, c) && c != ""
    ensures ClusterLookup(Invalidated(s, id), c).None?
    ensures forall w :: ClusterOf(Invalidated(s, id), w) != Some(c)
    ensures IsWalletAddress(id) ==> Lookup(Invalidated(s, id), id).None?
  {
    forall w ensures ClusterOf(Invalidated(s, id), w) != Some(c) {
      if ClusterOf(s, w) == Some(c) { LiveMember(s, w, c); }
    }
  }

  ghost predicate HexDigits(digits: string) {
    forall d | d in digits :: '0' <= d <= '9' || 'a' <= d <= 'f' || 'A' <= d <= 'F'
  }

  /** "0x" and then one to sixty-four hexadecimal digits. */
  ghost predicate AddressText(id: string) {
    exists digits: string :: id == "0x" + digits && 1 <= |digits| <= 64 && HexDigits(digits)
  }

  lemma AddressTextIs(id: string)
    ensures AddressText(id) <==> IsWalletAddress(id)
  {
    if IsWalletAddress(id) {
      assert id == "0x" + id[2..];
      assert HexDigits(id[2..]);
    }
    if digits: string :| id == "0x" + digits && 1 <= |digits| <= 64 && HexDigits(digits) {
      assert forall i | 2 <= i < |id| :: id[i] == digits[i - 2] && digits[i - 2] in digits;
    }
  }

  /** An address: its own entry goes, and with it the copy of its cluster and every entry that names the cluster. */
  lemma AddressInvalidated(s: Store, digits: string, ttl: nat)
    requires Sound(s, ttl) && 1 <= |digits| <= 64 && HexDigits(digits)
    ensures
      var id := "0x" + digits;
      var t := Invalidated(s, id);
      && Lookup(t, id).None? && ToLower(id) in Affected(s, id)
      && (forall c | Lookup(s, id).Some? && Names(Lookup(s, id).value.risk, c) ::
            && ClusterLookup(t, c).None?
            && forall w | Lookup(s, w).Some? && Names(Lookup(s, w).value.risk, c) ::
                 Lookup(t, w).None? && ToLower(w) in Affected(s, id))
  {
    var id := "0x" + digits;
    assert AddressText(id);
    AddressTextIs(id);
    forall c | Lookup(s, id).Some? && Names(Lookup(s, id).value.risk, c)
      ensures ClusterLookup(Invalidated(s, id), c).None?
      ensures forall w | Lookup(s, w).Some? && Names(Lookup(s, w).value.risk, c) ::
        Lookup(Invalidated(s, id), w).None? && ToLower(w) in Affected(s, id)
    {
      assert ClusterOf(s, id) == Some(c);
      forall w | Lookup(s, w).Some? && Names(Lookup(s, w).value.risk, c)
        ensures Lookup(Invalidated(s, id), w).None? && ToLower(w) in Affected(s, id)
      {
        LiveMember(s, w, c);
      }
    }
  }

  /** Any other text is a cluster id: exactly the listed members, the copy and the list of that cluster go. */
  lemma ClusterInvalidated(s: Store, id: string)
    requires !AddressText(id)
    ensures Affected(s, id) == MembersOf(s, id)
    ensures Invalidated(s, id) ==
      Store(s.wallets - MembersOf(s, id), s.clusters - {id}, s.members - {id}, s.now)
  {
    AddressTextIs(id);
  }

  /** An address whose own entry is gone reaches nobody else: its former siblings stay cached. */
  lemma ForgottenWalletSparesSiblings(s: Store, id: string, w: string)
    requires IsWalletAddress(id) && Lookup(s, id).None? && ToLower(w) != ToLower(id)
    ensures Lookup(Invalidated(s, id), w) == Lookup(s, w)
    ensures Invalidated(s, id).clusters == s.clusters
  {
  }

  /** What was written is read back, under the wallet and under its cluster, and no other wallet is touched. */
  lemma WriteReadBack(s: Store, wallet: string, risk: Risk, ttl: nat, other: string)
    requires !risk.pendingReview && ttl > 0
    ensures
      var t := Written(s, wallet, risk, ttl);
      && Lookup(t, wallet) == Some(Entry(risk, s.now + ttl))
      && (ToLower(other) != ToLower(wallet) ==> Lookup(t, other) == Lookup(s, other))
      && (forall c | Names(risk, c) ::
            ClusterLookup(t, c) == Some(Entry(risk, s.now + ttl))
            && MembersOf(t, c) == MembersOf(s, c) + {ToLower(wallet)})
      && (forall c | !Names(risk, c) ::
            ClusterLookup(t, c) == ClusterLookup(s, c) && MembersOf(t, c) == MembersOf(s, c))
  {
  }

  /** How long a write lasts: both copies for its lifetime, and the index that evicts them for two. */
  lemma LifetimesExact(s: Store, wallet: string, risk: Risk, ttl: nat, c: string, d: nat)
    requires !risk.pendingReview && risk.clusterId == Some(c) && c != ""
    ensures
      var t := Written(s, wallet, risk, ttl);
      var later := t.(now := t.now + d);
      && (Lookup(later, wallet).Some? <==> d < ttl) && (ClusterLookup(later, c).Some? <==> d < ttl)
      && MembersOf(later, c) == if d < 2 * ttl then MembersOf(s, c) + {ToLower(wallet)} else {}
  {
  }

  /** An invalidation removes what it reports and its cluster, and nothing else. */
  lemma InvalidationSpares(s: Store, id: string, w: string, c: string)
    ensures ToLower(w) in Affected(s, id) ==> Lookup(Invalidated(s, id), w).None?
    ensures ToLower(w) !in Affected(s, id) ==> Lookup(Invalidated(s, id), w) == Lookup(s, w)
    ensures c !in Evicted(s, id) ==> ClusterLookup(Invalidated(s, id), c) == ClusterLookup(s, c)
  {
  }

  // ---- timed runs ----

  /** A computation begins, and its outcome is written later; `begun` is the place in the run where it did. */
  datatype Event =
    | Tick(seconds: nat)
    | Compute(wallet: string)
    | Write(wallet: string, risk: Risk, begun: nat)
    | Invalidate(id: string)

  function Step(s: Store, e: Event, ttl: nat): Store {
    match e
    case Tick(d) => s.(now := s.now + d)
    case Compute(_) => s
    case Write(w, r, _) => Written(s, w, r, ttl)
    case Invalidate(id) => Invalidated(s, id)
  }

  const EMPTY: Store := Store(map[], map[], map[], 0)

  function Run(events: seq<Event>, ttl: nat): Store {
    if events == [] then EMPTY else Step(Run(events[..|events| - 1], ttl), events[|events| - 1], ttl)
  }

  lemma {:induction false} RunSound(events: seq<Event>, ttl: nat)
    ensures Sound(Run(events, ttl), ttl)
  {
    if events != [] {
      var init, e := events[..|events| - 1], events[|events| - 1];
      RunSound(init, ttl);
      match e
      case Tick(d) => TickSound(Run(init, ttl), Run(init, ttl).now + d, ttl);
      case Compute(_) =>
      case Write(w, r, _) => WrittenSound(Run(init, ttl), w, r, ttl);
      case Invalidate(id) => InvalidatedSound(Run(init, ttl), id, ttl);
    }
  }

  /** Event `e`, taken in state `s`, replaces or removes what is cached for the wallet. */
  predicate Supersedes(s: Store, e: Event, wallet: string, risk: Risk) {
    match e
    case Tick(_) => false
    case Compute(_) => false
    case Write(w, r, _) => ToLower(w) == ToLower(wallet) && !r.pendingReview
    case Invalidate(id) =>
      || (IsWalletAddress(id) && ToLower(id) == ToLower(wallet))
      || exists c :: c in Evicted(s, id) && Names(risk, c)
  }

  /** The entry was written by event `k`, and nothing since has superseded it. */
  ghost predicate WrittenAt(events: seq<Event>, ttl: nat, k: nat, wallet: string, entry: Entry) {
    && k < |events| && events[k].Write? && ToLower(events[k].wallet) == ToLower(wallet)
    && events[k].risk == entry.risk && !entry.risk.pendingReview
    && entry.expiresAt == Run(events[..k], ttl).now + ttl
    && forall j | k < j < |events| :: !Supersedes(Run(events[..j], ttl), events[j], wallet, entry.risk)
  }

  lemma WrittenAtExtends(events: seq<Event>, ttl: nat, e: Event, k: nat, wallet: string, entry: Entry)
    requires WrittenAt(events, ttl, k, wallet, entry) && !Supersedes(Run(events, ttl), e, wallet, entry.risk)
    ensures WrittenAt(events + [e], ttl, k, wallet, entry)
  {
    var more := events + [e];
    assert more[..|events|] == events && more[..k] == events[..k];
    forall j | k < j < |more| ensures !Supersedes(Run(more[..j], ttl), more[j], wallet, entry.risk) {
      if j < |events| { assert more[..j] == events[..j]; }
    }
  }

  lemma StepKeepsHit(s: Store, ttl: nat, e: Event, wallet: string, entry: Entry)
    requires Sound(s, ttl) && Lookup(Step(s, e, ttl), wallet) == Some(entry)
    ensures (e.Write? && ToLower(e.wallet) == ToLower(wallet) && !e.risk.pendingReview
             && entry == Entry(e.risk, s.now + ttl))
      || (Lookup(s, wallet) == Some(entry) && !Supersedes(s, e, wallet, entry.risk))
  {
    if e.Invalidate? {
      if c :| c in Evicted(s, e.id) && Names(entry.risk, c) {
        LiveMember(s, wallet, c);
      }
    }
  }

  /**
   * Every hit was written less than one lifetime ago, is not pending, and nothing since then has
   * rewritten it or invalidated the wallet, its cluster, or a wallet then cached for that cluster.
   */
  lemma {:induction false} HitIsFresh(events: seq<Event>, ttl: nat, wallet: string)
    requires Lookup(Run(events, ttl), wallet).Some?
    ensures exists k :: WrittenAt(events, ttl, k, wallet, Lookup(Run(events, ttl), wallet).value)
    ensures Run(events, ttl).now < Lookup(Run(events, ttl), wallet).value.expiresAt <= Run(events, ttl).now + ttl
  {
    var entry := Lookup(Run(events, ttl), wallet).value;
    RunSound(events, ttl);
    var init, e := events[..|events| - 1], events[|events| - 1];
    assert events == init + [e];
    RunSound(init, ttl);
    StepKeepsHit(Run(init, ttl), ttl, e, wallet, entry);
    if Lookup(Run(init, ttl), wallet) == Some(entry) && !Supersedes(Run(init, ttl), e, wallet, entry.risk) {
      HitIsFresh(init, ttl, wallet);
      var k :| WrittenAt(init, ttl, k, wallet, entry);
      WrittenAtExtends(init, ttl, e, k, wallet, entry);
    } else {
      assert WrittenAt(events, ttl, |init|, wallet, entry);
    }
  }

  // ---- computing takes time ----

  /** Every write stores what a computation for that wallet, begun earlier in the run, came to. */
  ghost predicate Paired(events: seq<Event>) {
    forall k | 0 <= k < |events| && events[k].Write? :: BegunAt(events, events[k].begun, k)
  }

  predicate BegunAt(events: seq<Event>, f: nat, k: nat)
    requires k < |events| && events[k].Write?
  {
    f < k && events[f].Compute? && ToLower(events[f].wallet) == ToLower(events[k].wallet)
  }

  /** Between two points of the run the wallet, or the cluster its risk names, was invalidated. */
  ghost predicate InvalidatedWithin(events: seq<Event>, ttl: nat, from: nat, to: nat, wallet: string, risk: Risk) {
    exists j :: from < j < to && j < |events| && events[j].Invalidate?
                && Supersedes(Run(events[..j], ttl), events[j], wallet, risk)
  }

  /**
   * A hit was computed after the last invalidation that concerns it exactly when none fell between the
   * start of its computation and its write: from the write on, none can have.
   */
  lemma HitComputedFresh(events: seq<Event>, ttl: nat, wallet: string, k: nat)
    requires Paired(events) && Lookup(Run(events, ttl), wallet).Some?
    requires WrittenAt(events, ttl, k, wallet, Lookup(Run(events, ttl), wallet).value)
    ensures
      var begun, risk := events[k].begun, events[k].risk;
      && begun < k && events[begun].Compute? && ToLower(events[begun].wallet) == ToLower(wallet)
      && (InvalidatedWithin(events, ttl, begun, |events|, wallet, risk)
          <==> InvalidatedWithin(events, ttl, begun, k, wallet, risk))
  {
    var begun, risk := events[k].begun, events[k].risk;
    assert BegunAt(events, begun, k);
    if InvalidatedWithin(events, ttl, begun, |events|, wallet, risk) {
      var j :| begun < j < |events| && events[j].Invalidate?
               && Supersedes(Run(events[..j], ttl), events[j], wallet, risk);
      assert j < k;
    }
  }

  /** One that did is lost: the stale entry is written after it and answers for its whole lifetime. */
  lemma LostInvalidation(wallet: string, risk: Risk, ttl: nat, age: nat)
    requires IsWalletAddress(wallet) && !risk.pendingReview && age < ttl
    ensures
      var events := [Compute(wallet), Invalidate(wallet), Write(wallet, risk, 0), Tick(age)];
      && Paired(events)
      && InvalidatedWithin(events, ttl, 0, 2, wallet, risk)
      && Lookup(Run(events, ttl), wallet) == Some(Entry(risk, ttl))
  {
    var e0, e1, e2, e3 := Compute(wallet), Invalidate(wallet), Write(wallet, risk, 0), Tick(age);
    var events := [e0, e1, e2, e3];
    var r3, r2, r1: seq<Event> := [e0, e1, e2], [e0, e1], [e0];
    assert events[..3] == r3 && r3[..2] == r2 && r2[..1] == r1 && r1[..0] == [] && events[..1] == r1;
    assert Run([], ttl) == EMPTY;
    assert Run(r1, ttl) == EMPTY;
    assert Run(r2, ttl) == Invalidated(EMPTY, wallet) == EMPTY;
    assert Run(r3, ttl) == Written(EMPTY, wallet, risk, ttl);
    assert Run(events, ttl) == Run(r3, ttl).(now := age);
    assert Supersedes(Run(events[..1], ttl), events[1], wallet, risk);
    assert BegunAt(events, 0, 2);
  }

  // ---- the client ----

  class RiskCache {
    var wallets: map<string, Entry>
    var clusters: map<string, Entry>
    var members: map<string, Index>
    var now: int
    /** Whether the server answers; when it does not, nothing is read or written. */
    var ready: bool
    const ttl: nat

    ghost function Contents(): Store
      reads this
    {
      Store(wallets, clusters, members, now)
    }

    ghost predicate Valid()
      reads this
    {
      Sound(Contents(), ttl)
    }

    constructor (lifetime: nat)
      ensures Valid() && Contents() == EMPTY && ttl == lifetime && ready
    {
      wallets, clusters, members, now, ready, ttl := map[], map[], map[], 0, true, lifetime;
    }

    method Wait(seconds: nat)
      requires Valid()
      modifies this`now
      ensures Valid() && Contents() == old(Contents()).(now := old(now) + seconds)
    {
      TickSound(Contents(), now + seconds, ttl);
      now := now + seconds;
    }

    method ReadCachedRisk(wallet: string) returns (hit: Option<Risk>)
      requires Valid()
      ensures hit.Some? <==> ready && Lookup(Contents(), wallet).Some?
      ensures hit.Some? ==> hit.value == Lookup(Contents(), wallet).value.risk && !hit.value.pendingReview
    {
      if !ready { return None; }
      var w := ToLower(wallet);
      hit := if w in wallets && now < wallets[w].expiresAt then Some(wallets[w].risk) else None;
    }

    method WriteCachedRisk(wallet: string, risk: Risk)
      requires Valid()
      modifies this`wallets, this`clusters, this`members
      ensures Valid()
      ensures Contents() == if ready then Written(old(Contents()), wallet, risk, ttl) else old(Contents())
    {
      if risk.pendingReview || !ready { return; }
      WrittenSound(Contents(), wallet, risk, ttl);
      var w := ToLower(wallet);
      wallets := wallets[w := Entry(risk, now + ttl)];
      if risk.clusterId.Some? && risk.clusterId.value != "" {
        var c := risk.clusterId.value;
        clusters := clusters[c := Entry(risk, now + ttl)];
        var live := if c in members && now < members[c].expiresAt then members[c].wallets else {};
        members := members[c := Index(live + {w}, now + 2 * ttl)];
      }
    }

    method LiveMembers(c: string) returns (live: set<string>)
      ensures live == MembersOf(Contents(), c)
    {
      live := if c in members && now < members[c].expiresAt then members[c].wallets else {};
    }

    method InvalidateRisk(id: string) returns (affected: set<string>)
      requires Valid()
      modifies this`wallets, this`clusters, this`members
      ensures Valid()
      ensures Contents() == if ready then Invalidated(old(Contents()), id) else old(Contents())
      ensures affected ==
        if ready then Affected(old(Contents()), id)
        else if IsWalletAddress(id) then {ToLower(id)} else {}
    {
      if !ready {
        return if IsWalletAddress(id) then {ToLower(id)} else {};
      }
      InvalidatedSound(Contents(), id, ttl);
      if IsWalletAddress(id) {
        var wallet := ToLower(id);
        LowerTwice(id);
        var cached := ReadCachedRisk(wallet);
        affected := {wallet};
        if cached.Some? && cached.value.clusterId.Some? && cached.value.clusterId.value != "" {
          var c := cached.value.clusterId.value;
          var siblings := LiveMembers(c);
          affected := affected + siblings;
          clusters, members := clusters - {c}, members - {c};
        }
        wallets := wallets - affected;
      } else {
        affected := LiveMembers(id);
        clusters, members := clusters - {id}, members - {id};
        wallets := wallets - affected;
      }
    }

    /** Read through: a hit, or the computed assessment, cached unless it is pending. */
    method GetRiskThroughCache(wallet: string, computed: Risk) returns (risk: Risk, cached: bool)
      requires Valid()
      modifies this`wallets, this`clusters, this`members
      ensures Valid()
      ensures cached <==> ready && Lookup(old(Contents()), wallet).Some?
      ensures cached ==> risk == Lookup(old(Contents()), wallet).value.risk && Contents() == old(Contents())
      ensures !cached ==> risk == computed
      ensures !cached && ready ==> Contents() == Written(old(Contents()), wallet, computed, ttl)
      ensures !ready ==> Contents() == old(Contents())
    {
      var hit := ReadCachedRisk(wallet);
      if hit.Some? { return hit.value, true; }
      WriteCachedRisk(wallet, computed);
      return computed, false;
    }
  }
}
