/** The per-campaign execution lock: SET NX EX of a constant value, released by an unconditional
    DEL. The value carries no owner, so only timing separates one holder's lock from the next. */
module CampaignLock {
  import opened Common

  // What Redis stores: for each campaign's lock key the instant it expires.
  type Keys = map<string, nat>

  predicate Live(keys: Keys, campaign: string, now: nat) {
    campaign in keys && now < keys[campaign]
  }

  // SET NX EX. Redis refuses an expiry of zero.
  predicate SetSucceeds(keys: Keys, campaign: string, ttl: nat, now: nat, fault: Fault) {
    campaign != "" && ttl > 0 && fault != NotSent && !Live(keys, campaign, now)
  }

  /** A lock is set if and only if the call reaches Redis with a campaign and a positive expiry, and the
      campaign's key is absent or has reached the instant it expires. */
  lemma SetExactly(keys: Keys, campaign: string, ttl: nat, now: nat, fault: Fault)
    ensures SetSucceeds(keys, campaign, ttl, now, fault) <==>
            && campaign != "" && 1 <= ttl && (fault == Works || fault == ReplyLost)
            && (campaign in keys ==> keys[campaign] <= now)
  {
  }

  // ----- One call on the store -----

  class LockStore {
    var now: nat
    var keys: Keys

    // `acquire_campaign_lock`
    method Acquire(campaign: string, ttl: nat, fault: Fault) returns (acquired: bool)
      modifies this`keys
      ensures acquired <==> SetSucceeds(old(keys), campaign, ttl, now, fault) && fault == Works
      ensures keys == if SetSucceeds(old(keys), campaign, ttl, now, fault)
                      then old(keys)[campaign := now + ttl] else old(keys)
    {
      if campaign == "" {
        return false;
      }
      if fault == NotSent || ttl == 0 {
        return false;
      }
      if !Live(keys, campaign, now) {
        keys := keys[campaign := now + ttl];
        return fault == Works;
      }
      return false;
    }

    // `release_campaign_lock`
    method Release(campaign: string, fault: Fault)
      modifies this`keys
      ensures keys == if campaign == "" || fault == NotSent then old(keys) else old(keys) - {campaign}
    {
      if campaign == "" {
        return;
      }
      if fault != NotSent {
        keys := keys - {campaign};
      }
    }
  }

  // ----- The protocol: any number of executions on any number of campaigns -----

  // An execution between acquire and release; `dead` is when the lock it set expires.
  datatype Holder = Holder(campaign: string, dead: nat)

  // `setter` remembers which execution set each key; Redis does not.
  datatype State = State(now: nat, keys: Keys, setter: map<string, nat>, holders: map<nat, Holder>)

  datatype Step =
    | Tick(dt: nat)
    | Acquire(pid: nat, campaign: string, ttl: nat, fault: Fault)
    | Release(pid: nat, fault: Fault)

  const INITIAL: State := State(0, map[], map[], map[])

  function Apply(s: State, step: Step): State {
    match step
    case Tick(dt) => s.(now := s.now + dt)
    case Acquire(pid, c, ttl, fault) =>
      if pid in s.holders || !SetSucceeds(s.keys, c, ttl, s.now, fault) then s
      else
        var t := s.(keys := s.keys[c := s.now + ttl], setter := s.setter[c := pid]);
        if fault == Works then t.(holders := t.holders[pid := Holder(c, s.now + ttl)]) else t
    case Release(pid, fault) =>
      if pid !in s.holders then s
      else
        var t := s.(holders := s.holders - {pid});
        if fault == NotSent then t else t.(keys := s.keys - {s.holders[pid].campaign})
  }

  function Run(s: State, steps: seq<Step>): State {
    if steps == [] then s else Apply(Run(s, steps[..|steps| - 1]), steps[|steps| - 1])
  }

  // No execution is still inside when the lock it set runs out.
  predicate Timely(s: State) {
    forall p | p in s.holders :: s.now < s.holders[p].dead
  }

  predicate TimelyRun(s: State, steps: seq<Step>) {
    Timely(Run(s, steps)) && (steps != [] ==> TimelyRun(s, steps[..|steps| - 1]))
  }

  predicate Holds(s: State, p: nat, campaign: string) {
    p in s.holders && s.holders[p].campaign == campaign
  }

  ghost predicate Exclusive(s: State) {
    forall p, q, c | Holds(s, p, c) && Holds(s, q, c) :: p == q
  }

  // Every execution inside owns its campaign's key.
  predicate Owned(s: State) {
    forall p | p in s.holders ::
      var c := s.holders[p].campaign;
      c in s.keys && c in s.setter && s.setter[c] == p && s.keys[c] == s.holders[p].dead
  }

  lemma StepKeepsOwned(s: State, step: Step)
    requires Owned(s) && Timely(s)
    ensures Owned(Apply(s, step))
  {
  }

  lemma {:induction false} RunKeepsOwned(s: State, steps: seq<Step>)
    requires Owned(s) && TimelyRun(s, steps)
    ensures Owned(Run(s, steps))
    decreases |steps|
  {
    if steps != [] {
      RunKeepsOwned(s, steps[..|steps| - 1]);
      StepKeepsOwned(Run(s, steps[..|steps| - 1]), steps[|steps| - 1]);
    }
  }

  /** If every execution releases before its lock expires, at most one execution per campaign is
      ever inside, for any number of processes and any faults. */
  lemma MutualExclusion(steps: seq<Step>)
    requires TimelyRun(INITIAL, steps)
    ensures Exclusive(Run(INITIAL, steps))
  {
    RunKeepsOwned(INITIAL, steps);
  }

  /** And each DEL removes the lock its own execution set, and no other campaign's. */
  lemma ReleasesOwnLock(steps: seq<Step>, pid: nat, fault: Fault)
    requires TimelyRun(INITIAL, steps) && pid in Run(INITIAL, steps).holders && fault != NotSent
    ensures var s := Run(INITIAL, steps);
            var c := s.holders[pid].campaign;
            && Live(s.keys, c, s.now) && c in s.setter && s.setter[c] == pid
            && Apply(s, Release(pid, fault)).keys == s.keys - {c}
            && forall q | q in s.holders && q != pid :: s.holders[q].campaign != c
  {
    RunKeepsOwned(INITIAL, steps);
  }

  /** The bound is exactly what is needed: while one execution is inside, another gets in if and only
      if it asks at or after the instant the first one's lock expires. */
  lemma SecondGetsInExactly(s: State, p: nat, q: nat, dt: nat, ttl: nat)
    requires Owned(s) && p in s.holders && q !in s.holders && s.holders[p].campaign != "" && ttl > 0
    ensures var c := s.holders[p].campaign;
            var t := Apply(Apply(s, Tick(dt)), Acquire(q, c, ttl, Works));
            Holds(t, p, c) && (Holds(t, q, c) <==> s.now + dt >= s.holders[p].dead)
  {
  }

  // At most one execution per campaign was inside at every point of a run.
  ghost predicate ExclusiveRun(steps: seq<Step>) {
    Exclusive(Run(INITIAL, steps)) && (steps != [] ==> ExclusiveRun(steps[..|steps| - 1]))
  }

  predicate Enters(s: State, step: Step) {
    && step.Acquire? && step.fault == Works && step.pid !in s.holders
    && SetSucceeds(s.keys, step.campaign, step.ttl, s.now, step.fault)
  }

  predicate Overdue(s: State, p: nat, campaign: string) {
    Holds(s, p, campaign) && s.holders[p].dead <= s.now
  }

  // Nobody enters a campaign while an execution that outstayed its lock is inside it.
  ghost predicate NoEntryOnOverdue(steps: seq<Step>) {
    steps != [] ==>
      && NoEntryOnOverdue(steps[..|steps| - 1])
      && var s, step := Run(INITIAL, steps[..|steps| - 1]), steps[|steps| - 1];
         Enters(s, step) ==> forall p :: !Overdue(s, p, step.campaign)
  }

  // Executions that have not outstayed their locks still have them.
  predicate TimelyOwned(s: State) {
    forall p | p in s.holders && s.now < s.holders[p].dead ::
      s.holders[p].campaign in s.keys && s.keys[s.holders[p].campaign] == s.holders[p].dead
  }

  lemma StepKeepsTimelyOwned(s: State, step: Step)
    requires TimelyOwned(s) && Exclusive(s)
    ensures TimelyOwned(Apply(s, step))
  {
    var t := Apply(s, step);
    forall p | p in t.holders && t.now < t.holders[p].dead
      ensures t.holders[p].campaign in t.keys && t.keys[t.holders[p].campaign] == t.holders[p].dead
    {
      assert p in s.holders ==> Holds(s, p, s.holders[p].campaign);
      if step.Release? && step.pid in s.holders { assert Holds(s, step.pid, s.holders[step.pid].campaign); }
    }
  }

  lemma {:induction false} ExclusiveKeepsTimelyOwned(steps: seq<Step>)
    requires ExclusiveRun(steps)
    ensures TimelyOwned(Run(INITIAL, steps))
    decreases |steps|
  {
    if steps != [] {
      ExclusiveKeepsTimelyOwned(steps[..|steps| - 1]);
      StepKeepsTimelyOwned(Run(INITIAL, steps[..|steps| - 1]), steps[|steps| - 1]);
    }
  }

  lemma StepIsExclusiveExactly(s: State, step: Step)
    requires TimelyOwned(s) && Exclusive(s)
    ensures Exclusive(Apply(s, step)) <==> (Enters(s, step) ==> forall p :: !Overdue(s, p, step.campaign))
  {
    var t := Apply(s, step);
    if Enters(s, step) {
      var c := step.campaign;
      assert Holds(t, step.pid, c);
      if p :| Overdue(s, p, c) {
        assert Holds(t, p, c) && p != step.pid;
      }
      if forall p :: !Overdue(s, p, c) {
        forall p | Holds(s, p, c)
          ensures Overdue(s, p, c)
        {
        }
        EntryIsExclusive(s, step);
      }
    } else {
      assert forall p, c | Holds(t, p, c) :: Holds(s, p, c);
    }
  }

  lemma EntryIsExclusive(s: State, step: Step)
    requires Exclusive(s) && Enters(s, step) && forall p :: !Holds(s, p, step.campaign)
    ensures Exclusive(Apply(s, step))
  {
    var t := Apply(s, step);
    assert forall p, c | Holds(t, p, c) :: if p == step.pid then c == step.campaign else Holds(s, p, c);
  }

  /** Over whole runs, with any faults: at most one execution per campaign is ever inside if and only if
      nobody ever enters a campaign while an execution that outstayed its lock is inside it. */
  lemma {:induction false} ExclusiveExactly(steps: seq<Step>)
    ensures ExclusiveRun(steps) <==> NoEntryOnOverdue(steps)
    decreases |steps|
  {
    if steps != [] {
      var before := steps[..|steps| - 1];
      ExclusiveExactly(before);
      if ExclusiveRun(before) {
        ExclusiveKeepsTimelyOwned(before);
        StepIsExclusiveExactly(Run(INITIAL, before), steps[|steps| - 1]);
      }
    }
  }

  // ----- Whose lock a release removes -----

  // A DEL that takes effect on a live lock another execution set.
  predicate RemovesForeignLock(s: State, step: Step) {
    && step.Release? && step.pid in s.holders && step.fault != NotSent
    && var c := s.holders[step.pid].campaign;
       Live(s.keys, c, s.now) && !(c in s.setter && s.setter[c] == step.pid)
  }

  predicate OnlyOwnLocksRemoved(steps: seq<Step>) {
    steps != [] ==>
      && OnlyOwnLocksRemoved(steps[..|steps| - 1])
      && !RemovesForeignLock(Run(INITIAL, steps[..|steps| - 1]), steps[|steps| - 1])
  }

  // A DEL that takes effect although its execution outstayed its own lock, while the key is live.
  predicate RemovesLate(s: State, step: Step) {
    && step.Release? && step.pid in s.holders && step.fault != NotSent
    && s.holders[step.pid].dead <= s.now && Live(s.keys, s.holders[step.pid].campaign, s.now)
  }

  predicate NoLateRemoval(steps: seq<Step>) {
    steps != [] ==>
      && NoLateRemoval(steps[..|steps| - 1])
      && !RemovesLate(Run(INITIAL, steps[..|steps| - 1]), steps[|steps| - 1])
  }

  predicate Owns(s: State, p: nat)
    requires p in s.holders
  {
    var c := s.holders[p].campaign;
    c in s.keys && c in s.setter && s.setter[c] == p && s.keys[c] == s.holders[p].dead
  }

  // Holders in time own their campaign's key; a key a holder set expires with that holder's lock at the
  // latest. Every key has a setter.
  predicate TracksOwners(s: State) {
    && (forall c | c in s.keys :: c in s.setter)
    && (forall p | p in s.holders && s.now < s.holders[p].dead :: Owns(s, p))
    && (forall p, c | Holds(s, p, c) && c in s.keys && s.setter[c] == p :: s.keys[c] <= s.holders[p].dead)
  }

  lemma StepTracksOwners(s: State, step: Step)
    requires TracksOwners(s) && !RemovesLate(s, step)
    ensures TracksOwners(Apply(s, step))
  {
    match step
    case Tick(dt) => TickTracksOwners(s, dt);
    case Acquire(pid, c, ttl, fault) =>
      if pid !in s.holders && SetSucceeds(s.keys, c, ttl, s.now, fault) { SetTracksOwners(s, pid, c, ttl, fault); }
    case Release(pid, fault) => ReleaseTracksOwners(s, pid, fault);
  }

  lemma TickTracksOwners(s: State, dt: nat)
    requires TracksOwners(s)
    ensures TracksOwners(s.(now := s.now + dt))
  {
    var t := s.(now := s.now + dt);
    forall p | p in t.holders && t.now < t.holders[p].dead
      ensures Owns(t, p)
    {
      assert Owns(s, p);
    }
    assert forall p, c | Holds(t, p, c) :: Holds(s, p, c);
  }

  // The key a SET writes was free, so nobody in time held it.
  lemma SetTracksOwners(s: State, pid: nat, campaign: string, ttl: nat, fault: Fault)
    requires TracksOwners(s) && pid !in s.holders && SetSucceeds(s.keys, campaign, ttl, s.now, fault)
    ensures TracksOwners(Apply(s, Acquire(pid, campaign, ttl, fault)))
  {
    var t := Apply(s, Acquire(pid, campaign, ttl, fault));
    forall p | p in t.holders && t.now < t.holders[p].dead
      ensures Owns(t, p)
    {
      if p != pid { assert Owns(s, p); }
    }
    forall p, c | Holds(t, p, c) && c in t.keys && t.setter[c] == p
      ensures t.keys[c] <= t.holders[p].dead
    {
      if p != pid { assert Holds(s, p, c); }
    }
  }

  lemma ReleaseTracksOwners(s: State, pid: nat, fault: Fault)
    requires TracksOwners(s) && !RemovesLate(s, Release(pid, fault))
    ensures TracksOwners(Apply(s, Release(pid, fault)))
  {
    var t := Apply(s, Release(pid, fault));
    assert forall p, c | Holds(t, p, c) :: Holds(s, p, c);
    forall p | p in t.holders && t.now < t.holders[p].dead
      ensures Owns(t, p)
    {
      assert Owns(s, p);
    }
  }

  lemma {:induction false} RunTracksOwners(steps: seq<Step>)
    requires NoLateRemoval(steps)
    ensures TracksOwners(Run(INITIAL, steps))
    decreases |steps|
  {
    if steps != [] {
      RunTracksOwners(steps[..|steps| - 1]);
      StepTracksOwners(Run(INITIAL, steps[..|steps| - 1]), steps[|steps| - 1]);
    }
  }

  lemma RemovalIsForeignExactly(s: State, step: Step)
    requires TracksOwners(s)
    ensures RemovesForeignLock(s, step) <==> RemovesLate(s, step)
  {
    if step.Release? && step.pid in s.holders {
      assert Holds(s, step.pid, s.holders[step.pid].campaign);
    }
  }

  /** Over whole runs, with any faults: no DEL ever removes a live lock that another execution set, if and
      only if no execution that outstayed its lock sends its DEL while its campaign's key is live. The
      foreign lock need not have a holder: it may be one whose SET lost its reply. */
  lemma {:induction false} OnlyOwnLocksRemovedExactly(steps: seq<Step>)
    ensures OnlyOwnLocksRemoved(steps) <==> NoLateRemoval(steps)
    decreases |steps|
  {
    if steps != [] {
      var before := steps[..|steps| - 1];
      OnlyOwnLocksRemovedExactly(before);
      if NoLateRemoval(before) {
        RunTracksOwners(before);
        RemovalIsForeignExactly(Run(INITIAL, before), steps[|steps| - 1]);
      }
    }
  }

  /** Exclusion is not enough: an execution never joined by another can still remove a foreign lock, one
      whose SET took effect while its reply was lost. */
  lemma ExclusiveRemovesForeignLock(campaign: string, ttl: nat)
    requires campaign != "" && ttl > 0
    ensures var steps := [Acquire(0, campaign, ttl, Works)] + [Tick(ttl)] + [Acquire(1, campaign, ttl, ReplyLost)];
            ExclusiveRun(steps) && !OnlyOwnLocksRemoved(steps + [Release(0, Works)])
  {
    var one := [Acquire(0, campaign, ttl, Works)];
    var two := one + [Tick(ttl)];
    var three := two + [Acquire(1, campaign, ttl, ReplyLost)];
    var all := three + [Release(0, Works)];
    assert one[..0] == [] && two[..1] == one && three[..2] == two && all[..3] == three;
    var s1 := Apply(INITIAL, one[0]);
    assert Run(INITIAL, one) == s1;
    assert Run(INITIAL, two) == Apply(s1, Tick(ttl));
    var s3 := Run(INITIAL, three);
    assert s3.holders == map[0 := Holder(campaign, ttl)] && s3.setter[campaign] == 1;
    assert ExclusiveRun([]) && ExclusiveRun(one) && ExclusiveRun(two);
    assert RemovesForeignLock(s3, all[3]);
  }

  /** After such an entry the late release removes the second execution's lock and lets a third one in. */
  lemma LateReleaseFreesForeignLock(campaign: string, ttl: nat)
    requires campaign != "" && ttl > 0
    ensures var s0 := Apply(INITIAL, Acquire(0, campaign, ttl, Works));
            var s1 := Apply(Apply(s0, Tick(ttl)), Acquire(1, campaign, ttl, Works));
            var s2 := Apply(s1, Release(0, Works));
            var s3 := Apply(s2, Acquire(2, campaign, ttl, Works));
            && !Exclusive(s1) && s1.setter[campaign] == 1 && campaign !in s2.keys
            && Holds(s3, 1, campaign) && Holds(s3, 2, campaign)
  {
    var s0 := Apply(INITIAL, Acquire(0, campaign, ttl, Works));
    var s1 := Apply(Apply(s0, Tick(ttl)), Acquire(1, campaign, ttl, Works));
    assert Holds(s1, 0, campaign) && Holds(s1, 1, campaign);
  }
}
