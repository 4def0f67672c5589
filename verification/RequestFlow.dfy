/** Requests from their policy to their answer: the policy cache, the rate limiter of one API key and the
    chat pipeline, run together. A request loads a policy, is counted under that policy's own limit and
    window, and goes on under the same policy. Requests under other keys interleave freely. */
module RequestFlow {
  import opened Common
  import CacheAside
  import RateLimiter
  import ChatPipeline

  // The parts: how policies are read, what the pipeline consults, and a policy's limit and window.
  datatype Parts<!D, !P> = Parts(
    rules: CacheAside.Rules<D, P>, guards: ChatPipeline.Guards<P>, limit: P -> nat, window: P -> nat)

  // A request between its INCR, which returned 1, and its EXPIRE.
  datatype Counting<P> = Counting(request: ChatPipeline.Request, policy: P)

  // The steps each part has taken so far; `mine` are the ids of the key's requests, and `passed` the
  // instants at which those let through were counted.
  datatype State<D, P> = State(
    config: seq<CacheAside.Step<D>>, turns: seq<RateLimiter.Turn>, chat: seq<ChatPipeline.Step<P>>,
    counting: map<nat, Counting<P>>, ids: set<nat>, mine: set<nat>, passed: map<nat, nat>)

  // `answer` is the policy read the request made. The three clocks are independent.
  datatype Step<D, P> =
    | Config(step: CacheAside.Step<D>)
    | LimiterTick(dt: nat)
    | Chat(move: ChatPipeline.Step<P>)
    | Other(pid: nat, request: ChatPipeline.Request, answer: nat, limiter: ChatPipeline.Limiter)
    | Arrive(pid: nat, request: ChatPipeline.Request, answer: nat, fault: Fault)
    | Settle(pid: nat, fault: Fault)

  function Initial<D, P>(): State<D, P> { State([], [], [], map[], {}, {}, map[]) }

  // ----- What the parts have come to -----

  function Policies<D, P>(parts: Parts<D, P>, rows: CacheAside.Table<D>, s: State<D, P>): CacheAside.State<D, P> {
    CacheAside.Run(parts.rules, CacheAside.Initial(rows), s.config)
  }

  function Counter<D, P>(s: State<D, P>): RateLimiter.State {
    RateLimiter.RunEach(RateLimiter.INITIAL, s.turns)
  }

  function Chats<D, P>(parts: Parts<D, P>, s: State<D, P>): ChatPipeline.State<P> {
    ChatPipeline.Run(parts.guards, ChatPipeline.Initial(), s.chat)
  }

  function Begun<D, P>(
    s: State<D, P>, pid: nat, r: ChatPipeline.Request, p: P, limiter: ChatPipeline.Limiter): State<D, P> {
    s.(chat := s.chat + [ChatPipeline.Begin(pid, r, p, limiter)])
  }

  // The limiter answers: unavailable, let through, or too many.
  function Verdict(before: RateLimiter.State, after: RateLimiter.State, fault: Fault): ChatPipeline.Limiter {
    if fault != Works then ChatPipeline.Down
    else if |after.passes| > |before.passes| then ChatPipeline.Pass
    else ChatPipeline.Exceeded
  }

  // The answer to an uninterrupted check.
  function AnswerOf(d: RateLimiter.Decision): ChatPipeline.Limiter {
    match d
    case Allowed => ChatPipeline.Pass
    case TooMany => ChatPipeline.Exceeded
    case Unavailable => ChatPipeline.Down
  }

  /** The verdict is the limiter's own decision: after the INCR unless the request then waits for its
      EXPIRE, and after the EXPIRE otherwise. */
  lemma VerdictIsDecision(
    c: RateLimiter.State, limit: nat, window: nat, pid: nat, incr: Fault, expire: Fault)
    requires pid !in c.waiting && (c.key.Some? ==> c.key.value.count >= 1)
    ensures var counted := RateLimiter.Apply(c, limit, window, RateLimiter.Incr(pid, incr));
            var settled := RateLimiter.Apply(counted, limit, window, RateLimiter.Expire(pid, expire));
            AnswerOf(RateLimiter.Decided(c.key, c.now, limit, incr, expire))
            == if pid in counted.waiting then Verdict(counted, settled, expire) else Verdict(c, counted, incr)
  {
    RateLimiter.IncrDecides(c, limit, window, pid, incr);
    var counted := RateLimiter.Apply(c, limit, window, RateLimiter.Incr(pid, incr));
    if pid in counted.waiting { RateLimiter.ExpireDecides(counted, limit, window, pid, expire); }
  }

  // The limiter has decided on the request, and the pipeline begins with its answer.
  function Decided<D, P>(
    s: State<D, P>, pid: nat, r: ChatPipeline.Request, p: P, turn: RateLimiter.Turn, fault: Fault): State<D, P> {
    var after := RateLimiter.Apply(Counter(s), turn.limit, turn.window, turn.step);
    var verdict := Verdict(Counter(s), after, fault);
    var t := Begun(s.(turns := s.turns + [turn]), pid, r, p, verdict);
    if verdict == ChatPipeline.Pass && after.passes != [] then
      t.(passed := s.passed[pid := after.passes[|after.passes| - 1].at])
    else t
  }

  function Arrived<D, P>(
    parts: Parts<D, P>, s: State<D, P>, pid: nat, r: ChatPipeline.Request, p: P, fault: Fault): State<D, P> {
    var turn := RateLimiter.Turn(RateLimiter.Incr(pid, fault), parts.limit(p), parts.window(p));
    // access is checked before the limiter is asked
    if !parts.guards.allowed(r, p) then Begun(s, pid, r, p, ChatPipeline.Down)
    else if pid in RateLimiter.Apply(Counter(s), turn.limit, turn.window, turn.step).waiting then
      s.(turns := s.turns + [turn], counting := s.counting[pid := Counting(r, p)])
    else Decided(s, pid, r, p, turn, fault)
  }

  function Settled<D, P>(parts: Parts<D, P>, s: State<D, P>, pid: nat, c: Counting<P>, fault: Fault): State<D, P> {
    var turn := RateLimiter.Turn(RateLimiter.Expire(pid, fault), parts.limit(c.policy), parts.window(c.policy));
    Decided(s.(counting := s.counting - {pid}), pid, c.request, c.policy, turn, fault)
  }

  // A new id that holds the policy of an answer given so far.
  predicate Fresh<D, P>(parts: Parts<D, P>, rows: CacheAside.Table<D>, s: State<D, P>, pid: nat, answer: nat) {
    pid !in s.ids && answer < |Policies(parts, rows, s).answers|
  }

  function Apply<D, P>(parts: Parts<D, P>, rows: CacheAside.Table<D>, s: State<D, P>, step: Step<D, P>): State<D, P> {
    match step
    case Config(c) => s.(config := s.config + [c])
    case LimiterTick(dt) => s.(turns := s.turns + [RateLimiter.Turn(RateLimiter.Tick(dt), 0, 0)])
    case Chat(move) => if move.Begin? then s else s.(chat := s.chat + [move])
    case Other(pid, r, answer, limiter) =>
      if !Fresh(parts, rows, s, pid, answer) then s
      else Begun(s.(ids := s.ids + {pid}), pid, r, Policies(parts, rows, s).answers[answer].policy, limiter)
    case Arrive(pid, r, answer, fault) =>
      if !Fresh(parts, rows, s, pid, answer) then s
      else
        var t := s.(ids := s.ids + {pid}, mine := s.mine + {pid});
        Arrived(parts, t, pid, r, Policies(parts, rows, s).answers[answer].policy, fault)
    case Settle(pid, fault) => if pid in s.counting then Settled(parts, s, pid, s.counting[pid], fault) else s
  }

  function Run<D, P>(parts: Parts<D, P>, rows: CacheAside.Table<D>, steps: seq<Step<D, P>>): State<D, P> {
    if steps == [] then Initial() else Apply(parts, rows, Run(parts, rows, steps[..|steps| - 1]), steps[|steps| - 1])
  }

  // ----- Every request holds a policy that was handed out -----

  ghost predicate Handed<D, P>(parts: Parts<D, P>, rows: CacheAside.Table<D>, s: State<D, P>, p: P) {
    exists a | a in Policies(parts, rows, s).answers :: a.policy == p
  }

  ghost predicate HoldsHanded<D(!new), P(!new)>(parts: Parts<D, P>, rows: CacheAside.Table<D>, s: State<D, P>) {
    && (forall b | b in s.chat && b.Begin? :: Handed(parts, rows, s, b.policy))
    && (forall pid | pid in s.counting :: Handed(parts, rows, s, s.counting[pid].policy))
  }

  lemma AnswersGrow<D, P>(rules: CacheAside.Rules<D, P>, s: CacheAside.State<D, P>, step: CacheAside.Step<D>)
    ensures s.answers <= CacheAside.Apply(rules, s, step).answers
  {
  }

  lemma HandedStays<D(!new), P(!new)>(
    parts: Parts<D, P>, rows: CacheAside.Table<D>, s: State<D, P>, c: CacheAside.Step<D>, p: P)
    requires Handed(parts, rows, s, p)
    ensures Handed(parts, rows, s.(config := s.config + [c]), p)
  {
    var before := Policies(parts, rows, s);
    var t := s.(config := s.config + [c]);
    assert t.config[..|s.config|] == s.config;
    AnswersGrow(parts.rules, before, c);
    var i :| 0 <= i < |before.answers| && before.answers[i].policy == p;
    assert Policies(parts, rows, t).answers[i] == before.answers[i];
  }

  // Only policy reads change what was handed out.
  lemma HandedAlike<D(!new), P(!new)>(
    parts: Parts<D, P>, rows: CacheAside.Table<D>, s: State<D, P>, t: State<D, P>, p: P)
    requires t.config == s.config
    ensures Handed(parts, rows, t, p) <==> Handed(parts, rows, s, p)
  {
  }

  // A step that lets one request of a handed policy go on, or wait for its EXPIRE.
  lemma GoesOnHanded<D(!new), P(!new)>(
    parts: Parts<D, P>, rows: CacheAside.Table<D>, s: State<D, P>, t: State<D, P>, b: ChatPipeline.Step<P>)
    requires HoldsHanded(parts, rows, s) && t.config == s.config && t.counting.Items <= s.counting.Items
    requires t.chat == s.chat + [b] && (b.Begin? ==> Handed(parts, rows, s, b.policy))
    ensures HoldsHanded(parts, rows, t)
  {
    forall p
      ensures Handed(parts, rows, t, p) <==> Handed(parts, rows, s, p)
    {
      HandedAlike(parts, rows, s, t, p);
    }
    forall pid | pid in t.counting
      ensures Handed(parts, rows, t, t.counting[pid].policy)
    {
      assert (pid, t.counting[pid]) in t.counting.Items;
    }
  }

  lemma WaitsHanded<D(!new), P(!new)>(
    parts: Parts<D, P>, rows: CacheAside.Table<D>, s: State<D, P>, t: State<D, P>, pid: nat, c: Counting<P>)
    requires HoldsHanded(parts, rows, s) && t.config == s.config && t.chat == s.chat
    requires t.counting == s.counting[pid := c] && Handed(parts, rows, s, c.policy)
    ensures HoldsHanded(parts, rows, t)
  {
    forall p
      ensures Handed(parts, rows, t, p) <==> Handed(parts, rows, s, p)
    {
      HandedAlike(parts, rows, s, t, p);
    }
  }

  lemma ConfigHoldsHanded<D(!new), P(!new)>(
    parts: Parts<D, P>, rows: CacheAside.Table<D>, s: State<D, P>, c: CacheAside.Step<D>)
    requires HoldsHanded(parts, rows, s)
    ensures HoldsHanded(parts, rows, s.(config := s.config + [c]))
  {
    forall p | Handed(parts, rows, s, p)
      ensures Handed(parts, rows, s.(config := s.config + [c]), p)
    {
      HandedStays(parts, rows, s, c, p);
    }
  }

  // A decision counts one turn and begins one request.
  lemma DecisionBegins<D, P>(
    s: State<D, P>, pid: nat, r: ChatPipeline.Request, p: P, turn: RateLimiter.Turn, fault: Fault)
    returns (v: ChatPipeline.Limiter)
    ensures v == Verdict(Counter(s), RateLimiter.Apply(Counter(s), turn.limit, turn.window, turn.step), fault)
    ensures Decided(s, pid, r, p, turn, fault)
            == s.(turns := s.turns + [turn], chat := s.chat + [ChatPipeline.Begin(pid, r, p, v)],
                  passed := Decided(s, pid, r, p, turn, fault).passed)
  {
    v := Verdict(Counter(s), RateLimiter.Apply(Counter(s), turn.limit, turn.window, turn.step), fault);
  }

  lemma ArriveHoldsHanded<D(!new), P(!new)>(
    parts: Parts<D, P>, rows: CacheAside.Table<D>, s: State<D, P>,
    pid: nat, r: ChatPipeline.Request, p: P, fault: Fault)
    requires HoldsHanded(parts, rows, s) && Handed(parts, rows, s, p)
    ensures HoldsHanded(parts, rows, Arrived(parts, s, pid, r, p, fault))
  {
    var turn := RateLimiter.Turn(RateLimiter.Incr(pid, fault), parts.limit(p), parts.window(p));
    var t := Arrived(parts, s, pid, r, p, fault);
    if !parts.guards.allowed(r, p) {
      GoesOnHanded(parts, rows, s, t, ChatPipeline.Begin(pid, r, p, ChatPipeline.Down));
    } else if pid in RateLimiter.Apply(Counter(s), turn.limit, turn.window, turn.step).waiting {
      WaitsHanded(parts, rows, s, t, pid, Counting(r, p));
    } else {
      var v := DecisionBegins(s, pid, r, p, turn, fault);
      GoesOnHanded(parts, rows, s, t, ChatPipeline.Begin(pid, r, p, v));
    }
  }

  lemma SettleHoldsHanded<D(!new), P(!new)>(
    parts: Parts<D, P>, rows: CacheAside.Table<D>, s: State<D, P>, pid: nat, fault: Fault)
    requires HoldsHanded(parts, rows, s) && pid in s.counting
    ensures HoldsHanded(parts, rows, Settled(parts, s, pid, s.counting[pid], fault))
  {
    var c := s.counting[pid];
    var turn := RateLimiter.Turn(RateLimiter.Expire(pid, fault), parts.limit(c.policy), parts.window(c.policy));
    var rest := s.(counting := s.counting - {pid});
    var v := DecisionBegins(rest, pid, c.request, c.policy, turn, fault);
    GoesOnHanded(parts, rows, s, Settled(parts, s, pid, c, fault),
                 ChatPipeline.Begin(pid, c.request, c.policy, v));
  }

  lemma StepHoldsHanded<D(!new), P(!new)>(
    parts: Parts<D, P>, rows: CacheAside.Table<D>, s: State<D, P>, step: Step<D, P>)
    requires HoldsHanded(parts, rows, s)
    ensures HoldsHanded(parts, rows, Apply(parts, rows, s, step))
  {
    var t := Apply(parts, rows, s, step);
    match step
    case Config(c) => ConfigHoldsHanded(parts, rows, s, c);
    case LimiterTick(dt) => SameHeld(parts, rows, s, t);
    case Chat(move) => if !move.Begin? { GoesOnHanded(parts, rows, s, t, move); }
    case Other(pid, r, answer, limiter) =>
      if Fresh(parts, rows, s, pid, answer) {
        var p := Policies(parts, rows, s).answers[answer].policy;
        GoesOnHanded(parts, rows, s, t, ChatPipeline.Begin(pid, r, p, limiter));
      }
    case Arrive(pid, r, answer, fault) =>
      if Fresh(parts, rows, s, pid, answer) {
        var u := s.(ids := s.ids + {pid}, mine := s.mine + {pid});
        var p := Policies(parts, rows, s).answers[answer].policy;
        SameHeld(parts, rows, s, u);
        ArriveHoldsHanded(parts, rows, u, pid, r, p, fault);
      }
    case Settle(pid, fault) => if pid in s.counting { SettleHoldsHanded(parts, rows, s, pid, fault); }
  }

  lemma SameHeld<D(!new), P(!new)>(
    parts: Parts<D, P>, rows: CacheAside.Table<D>, s: State<D, P>, t: State<D, P>)
    requires HoldsHanded(parts, rows, s) && t.config == s.config && t.chat == s.chat && t.counting == s.counting
    ensures HoldsHanded(parts, rows, t)
    ensures forall p :: Handed(parts, rows, t, p) <==> Handed(parts, rows, s, p)
  {
    forall p
      ensures Handed(parts, rows, t, p) <==> Handed(parts, rows, s, p)
    {
      HandedAlike(parts, rows, s, t, p);
    }
  }

  /** On every interleaving each request goes on under a policy that some policy read answered. */
  lemma {:induction false} RunHoldsHanded<D(!new), P(!new)>(
    parts: Parts<D, P>, rows: CacheAside.Table<D>, steps: seq<Step<D, P>>)
    ensures HoldsHanded(parts, rows, Run(parts, rows, steps))
    decreases |steps|
  {
    if steps != [] {
      RunHoldsHanded(parts, rows, steps[..|steps| - 1]);
      StepHoldsHanded(parts, rows, Run(parts, rows, steps[..|steps| - 1]), steps[|steps| - 1]);
    }
  }

  // ----- The key's requests are the limiter's passes -----

  // The key's requests counted in the half-open interval [from, to) and let through.
  function Within(passed: map<nat, nat>, from: nat, to: nat): set<nat> {
    set pid | pid in passed && from <= passed[pid] < to
  }

  ghost predicate Tallies(passed: map<nat, nat>, passes: seq<RateLimiter.Pass>) {
    forall from: nat, to: nat :: |Within(passed, from, to)| == RateLimiter.Count(passes, RateLimiter.Between(from, to))
  }

  lemma OnePassed(passed: map<nat, nat>, passes: seq<RateLimiter.Pass>, pid: nat, pass: RateLimiter.Pass)
    requires Tallies(passed, passes) && pid !in passed
    ensures Tallies(passed[pid := pass.at], passes + [pass])
  {
    forall from: nat, to: nat
      ensures |Within(passed[pid := pass.at], from, to)|
              == RateLimiter.Count(passes + [pass], RateLimiter.Between(from, to))
    {
      RateLimiter.CountAppend(passes, pass, RateLimiter.Between(from, to));
      var before, after := Within(passed, from, to), Within(passed[pid := pass.at], from, to);
      assert |before| == RateLimiter.Count(passes, RateLimiter.Between(from, to));
      assert after == if from <= pass.at < to then before + {pid} else before;
    }
  }

  // The limiter and the requests it has seen.
  ghost predicate Tallied(c: RateLimiter.State, counting: set<nat>, passed: map<nat, nat>) {
    && Tallies(passed, c.passes)
    && counting == c.waiting.Keys && counting !! passed.Keys
  }

  lemma {:induction false} TurnSnoc(turns: seq<RateLimiter.Turn>, turn: RateLimiter.Turn)
    ensures RateLimiter.RunEach(RateLimiter.INITIAL, turns + [turn])
            == RateLimiter.Apply(RateLimiter.RunEach(RateLimiter.INITIAL, turns), turn.limit, turn.window, turn.step)
  {
    assert (turns + [turn])[..|turns|] == turns;
  }

  // What the chat trace says about ids: none begins twice, none begins while it is being counted, and
  // each of the key's that was let through is on record.
  ghost predicate Recorded<D, P>(s: State<D, P>) {
    && ChatPipeline.UniqueIds(s.chat) && s.mine <= s.ids
    && (forall b | b in s.chat && b.Begin? :: b.pid in s.ids && b.pid !in s.counting)
    && (forall b | b in s.chat && b.Begin? && b.limiter == ChatPipeline.Pass && b.pid in s.mine :: b.pid in s.passed)
    && s.counting.Keys <= s.mine && s.passed.Keys <= s.mine
    && (forall pid | pid in s.passed :: ChatPipeline.BeganAs(s.chat, pid))
  }

  ghost predicate Inv<D, P>(s: State<D, P>) {
    Tallied(Counter(s), s.counting.Keys, s.passed) && Recorded(s)
  }

  // One of the key's ids begins, with the limiter's word recorded.
  lemma BeginIsRecorded<D, P>(s: State<D, P>, t: State<D, P>, b: ChatPipeline.Step<P>)
    requires Recorded(s) && b.Begin? && !ChatPipeline.BeganAs(s.chat, b.pid)
    requires t.chat == s.chat + [b] && t.ids == s.ids + {b.pid} && s.mine <= t.mine <= s.mine + {b.pid}
    requires t.counting == s.counting - {b.pid}
    requires || t.passed == s.passed
             || (b.pid in t.mine && b.pid in t.passed && t.passed == s.passed[b.pid := t.passed[b.pid]])
    requires b.limiter == ChatPipeline.Pass && b.pid in t.mine ==> b.pid in t.passed
    ensures Recorded(t)
  {
    assert forall i | 0 <= i < |s.chat| && s.chat[i].Begin? :: ChatPipeline.BeganAs(s.chat, s.chat[i].pid);
    assert t.chat[|s.chat|] == b && ChatPipeline.BeganAs(t.chat, b.pid);
    forall pid | ChatPipeline.BeganAs(s.chat, pid)
      ensures ChatPipeline.BeganAs(t.chat, pid)
    {
      var i :| 0 <= i < |s.chat| && s.chat[i].Begin? && s.chat[i].pid == pid;
      assert t.chat[i] == s.chat[i];
    }
  }

  lemma NewIdsHaveNotBegun<D, P>(s: State<D, P>, pid: nat)
    requires Recorded(s) && (pid !in s.ids || pid in s.counting)
    ensures !ChatPipeline.BeganAs(s.chat, pid)
  {
    assert forall i | 0 <= i < |s.chat| :: s.chat[i] in s.chat;
  }

  // The limiter's decision on one of the key's requests, none of whose ids was let through before.
  lemma DecisionIsTallied<D, P>(
    s: State<D, P>, pid: nat, r: ChatPipeline.Request, p: P, turn: RateLimiter.Turn, fault: Fault)
    requires Tallies(s.passed, Counter(s).passes) && pid !in s.passed
    requires var after := RateLimiter.Apply(Counter(s), turn.limit, turn.window, turn.step);
             RateLimiter.GrowsByOne(Counter(s), after) && (fault != Works ==> after.passes == Counter(s).passes)
    ensures var t := Decided(s, pid, r, p, turn, fault);
            && Counter(t) == RateLimiter.Apply(Counter(s), turn.limit, turn.window, turn.step)
            && Tallies(t.passed, Counter(t).passes)
            && (t.passed == s.passed || (pid in t.passed && t.passed == s.passed[pid := t.passed[pid]]))
            && (ChatPipeline.Begin(pid, r, p, ChatPipeline.Pass) == t.chat[|s.chat|] ==> pid in t.passed)
  {
    var c := Counter(s);
    var after := RateLimiter.Apply(c, turn.limit, turn.window, turn.step);
    TurnSnoc(s.turns, turn);
    if after.passes != c.passes {
      OnePassed(s.passed, c.passes, pid, after.passes[|after.passes| - 1]);
    }
  }

  lemma DecisionKeepsInv<D, P>(
    s: State<D, P>, pid: nat, r: ChatPipeline.Request, p: P, turn: RateLimiter.Turn, fault: Fault)
    requires Tallies(s.passed, Counter(s).passes) && Recorded(s) && !ChatPipeline.BeganAs(s.chat, pid)
    requires pid in s.mine && pid !in s.passed && pid !in s.counting && s.counting.Keys !! s.passed.Keys
    requires var after := RateLimiter.Apply(Counter(s), turn.limit, turn.window, turn.step);
             && RateLimiter.GrowsByOne(Counter(s), after) && after.waiting.Keys == s.counting.Keys
             && (fault != Works ==> after.passes == Counter(s).passes)
    ensures Inv(Decided(s, pid, r, p, turn, fault))
  {
    var t := Decided(s, pid, r, p, turn, fault);
    var v := DecisionBegins(s, pid, r, p, turn, fault);
    DecisionIsTallied(s, pid, r, p, turn, fault);
    assert t.ids == s.ids + {pid} && t.counting == s.counting - {pid};
    BeginIsRecorded(s, t, ChatPipeline.Begin(pid, r, p, v));
  }

  // The id has become one of the key's.
  function Known<D, P>(s: State<D, P>, pid: nat): State<D, P> {
    s.(ids := s.ids + {pid}, mine := s.mine + {pid})
  }

  // Access control refuses the request; the limiter is not asked.
  lemma DeniedKeepsInv<D, P>(s: State<D, P>, pid: nat, r: ChatPipeline.Request, p: P)
    requires Inv(s) && pid !in s.ids
    ensures Inv(Begun(Known(s, pid), pid, r, p, ChatPipeline.Down))
  {
    NewIdsHaveNotBegun(s, pid);
    assert s.counting - {pid} == s.counting;
    BeginIsRecorded(s, Begun(Known(s, pid), pid, r, p, ChatPipeline.Down),
                    ChatPipeline.Begin(pid, r, p, ChatPipeline.Down));
  }

  // The request waits for its EXPIRE.
  lemma WaitKeepsInv<D, P>(s: State<D, P>, pid: nat, c: Counting<P>, turn: RateLimiter.Turn, fault: Fault)
    requires Inv(s) && pid !in s.ids && turn.step == RateLimiter.Incr(pid, fault)
    requires pid in RateLimiter.Apply(Counter(s), turn.limit, turn.window, turn.step).waiting
    ensures Inv(Known(s, pid).(turns := s.turns + [turn], counting := s.counting[pid := c]))
  {
    RateLimiter.IncrDecides(Counter(s), turn.limit, turn.window, pid, fault);
    TurnSnoc(s.turns, turn);
  }

  lemma ArriveKeepsInv<D, P>(
    parts: Parts<D, P>, s: State<D, P>, pid: nat, r: ChatPipeline.Request, p: P, fault: Fault)
    requires Inv(s) && pid !in s.ids
    ensures Inv(Arrived(parts, Known(s, pid), pid, r, p, fault))
  {
    var turn := RateLimiter.Turn(RateLimiter.Incr(pid, fault), parts.limit(p), parts.window(p));
    if !parts.guards.allowed(r, p) {
      DeniedKeepsInv(s, pid, r, p);
    } else if pid in RateLimiter.Apply(Counter(s), turn.limit, turn.window, turn.step).waiting {
      WaitKeepsInv(s, pid, Counting(r, p), turn, fault);
    } else {
      RateLimiter.IncrDecides(Counter(s), turn.limit, turn.window, pid, fault);
      NewIdsHaveNotBegun(s, pid);
      NewIdIsRecorded(s, pid);
      DecisionKeepsInv(Known(s, pid), pid, r, p, turn, fault);
    }
  }

  lemma NewIdIsRecorded<D, P>(s: State<D, P>, pid: nat)
    requires Recorded(s) && pid !in s.ids
    ensures Recorded(Known(s, pid))
  {
  }

  lemma SettleKeepsInv<D, P>(parts: Parts<D, P>, s: State<D, P>, pid: nat, fault: Fault)
    requires Inv(s) && pid in s.counting
    ensures Inv(Settled(parts, s, pid, s.counting[pid], fault))
  {
    var c := s.counting[pid];
    var turn := RateLimiter.Turn(RateLimiter.Expire(pid, fault), parts.limit(c.policy), parts.window(c.policy));
    NewIdsHaveNotBegun(s, pid);
    RateLimiter.ExpireDecides(Counter(s), turn.limit, turn.window, pid, fault);
    DecisionKeepsInv(s.(counting := s.counting - {pid}), pid, c.request, c.policy, turn, fault);
  }

  lemma MoveKeepsInv<D, P>(s: State<D, P>, move: ChatPipeline.Step<P>)
    requires Inv(s) && !move.Begin?
    ensures Inv(s.(chat := s.chat + [move]))
  {
    var t := s.(chat := s.chat + [move]);
    forall pid | ChatPipeline.BeganAs(s.chat, pid)
      ensures ChatPipeline.BeganAs(t.chat, pid)
    {
      var i :| 0 <= i < |s.chat| && s.chat[i].Begin? && s.chat[i].pid == pid;
      assert t.chat[i] == s.chat[i];
    }
  }

  lemma OtherKeepsInv<D, P>(
    s: State<D, P>, pid: nat, r: ChatPipeline.Request, p: P, limiter: ChatPipeline.Limiter)
    requires Inv(s) && pid !in s.ids
    ensures Inv(Begun(s.(ids := s.ids + {pid}), pid, r, p, limiter))
  {
    NewIdsHaveNotBegun(s, pid);
    assert s.counting - {pid} == s.counting;
    BeginIsRecorded(s, Begun(s.(ids := s.ids + {pid}), pid, r, p, limiter), ChatPipeline.Begin(pid, r, p, limiter));
  }

  lemma TickKeepsInv<D, P>(s: State<D, P>, dt: nat)
    requires Inv(s)
    ensures Inv(s.(turns := s.turns + [RateLimiter.Turn(RateLimiter.Tick(dt), 0, 0)]))
  {
    TurnSnoc(s.turns, RateLimiter.Turn(RateLimiter.Tick(dt), 0, 0));
    RateLimiter.TickLeaves(Counter(s), 0, 0, dt);
  }

  lemma StepKeepsInv<D(!new), P(!new)>(
    parts: Parts<D, P>, rows: CacheAside.Table<D>, s: State<D, P>, step: Step<D, P>)
    requires Inv(s)
    ensures Inv(Apply(parts, rows, s, step))
  {
    match step
    case Config(c) =>
    case LimiterTick(dt) => TickKeepsInv(s, dt);
    case Chat(move) => if !move.Begin? { MoveKeepsInv(s, move); }
    case Other(pid, r, answer, limiter) =>
      if Fresh(parts, rows, s, pid, answer) {
        OtherKeepsInv(s, pid, r, Policies(parts, rows, s).answers[answer].policy, limiter);
      }
    case Arrive(pid, r, answer, fault) =>
      if Fresh(parts, rows, s, pid, answer) {
        ArriveKeepsInv(parts, s, pid, r, Policies(parts, rows, s).answers[answer].policy, fault);
      }
    case Settle(pid, fault) => if pid in s.counting { SettleKeepsInv(parts, s, pid, fault); }
  }

  lemma {:induction false} RunKeepsInv<D(!new), P(!new)>(
    parts: Parts<D, P>, rows: CacheAside.Table<D>, steps: seq<Step<D, P>>)
    ensures Inv(Run(parts, rows, steps))
    decreases |steps|
  {
    if steps == [] {
      InitialInv<D, P>();
    } else {
      RunKeepsInv(parts, rows, steps[..|steps| - 1]);
      StepKeepsInv(parts, rows, Run(parts, rows, steps[..|steps| - 1]), steps[|steps| - 1]);
    }
  }

  lemma InitialInv<D, P>()
    ensures Inv(Initial<D, P>())
  {
    assert forall from, to :: Within(map[], from, to) == {};
  }

  // ----- No request is decided by more than its own policy allows -----

  // Every policy handed out allows at most `limit` requests in a window of at least `window`.
  ghost predicate Allows<D, P(!new)>(
    parts: Parts<D, P>, rows: CacheAside.Table<D>, s: State<D, P>, limit: nat, window: nat) {
    forall p | Handed(parts, rows, s, p) :: parts.limit(p) <= limit && window <= parts.window(p)
  }

  lemma OneMoreTurn(turns: seq<RateLimiter.Turn>, turn: RateLimiter.Turn, limit: nat, window: nat)
    requires RateLimiter.Limited(turns, limit, window)
    requires !turn.step.Tick? ==> turn.limit <= limit && window <= turn.window
    ensures RateLimiter.Limited(turns + [turn], limit, window)
  {
  }

  lemma StepIsLimited<D(!new), P(!new)>(
    parts: Parts<D, P>, rows: CacheAside.Table<D>, s: State<D, P>, step: Step<D, P>, limit: nat, window: nat)
    requires HoldsHanded(parts, rows, s) && Allows(parts, rows, s, limit, window)
    requires RateLimiter.Limited(s.turns, limit, window)
    ensures RateLimiter.Limited(Apply(parts, rows, s, step).turns, limit, window)
  {
    match step
    case Config(_) =>
    case LimiterTick(dt) => OneMoreTurn(s.turns, RateLimiter.Turn(RateLimiter.Tick(dt), 0, 0), limit, window);
    case Chat(_) =>
    case Other(_, _, _, _) =>
    case Arrive(pid, r, answer, fault) =>
      if Fresh(parts, rows, s, pid, answer) {
        var p := Policies(parts, rows, s).answers[answer].policy;
        assert Handed(parts, rows, s, p);
        OneMoreTurn(s.turns, RateLimiter.Turn(RateLimiter.Incr(pid, fault), parts.limit(p), parts.window(p)),
                    limit, window);
      }
    case Settle(pid, fault) =>
      if pid in s.counting {
        var p := s.counting[pid].policy;
        OneMoreTurn(s.turns, RateLimiter.Turn(RateLimiter.Expire(pid, fault), parts.limit(p), parts.window(p)),
                    limit, window);
      }
  }

  lemma EarlierAllows<D(!new), P(!new)>(
    parts: Parts<D, P>, rows: CacheAside.Table<D>, s: State<D, P>, step: Step<D, P>, limit: nat, window: nat)
    requires Allows(parts, rows, Apply(parts, rows, s, step), limit, window)
    ensures Allows(parts, rows, s, limit, window)
  {
    forall p | Handed(parts, rows, s, p)
      ensures Handed(parts, rows, Apply(parts, rows, s, step), p)
    {
      if step.Config? {
        HandedStays(parts, rows, s, step.step, p);
      } else {
        ConfigStays(parts, rows, s, step);
        HandedAlike(parts, rows, s, Apply(parts, rows, s, step), p);
      }
    }
  }

  lemma ConfigStays<D, P>(parts: Parts<D, P>, rows: CacheAside.Table<D>, s: State<D, P>, step: Step<D, P>)
    requires !step.Config?
    ensures Apply(parts, rows, s, step).config == s.config
  {
  }

  lemma {:induction false} RunIsLimited<D(!new), P(!new)>(
    parts: Parts<D, P>, rows: CacheAside.Table<D>, steps: seq<Step<D, P>>, limit: nat, window: nat)
    requires Allows(parts, rows, Run(parts, rows, steps), limit, window)
    ensures RateLimiter.Limited(Run(parts, rows, steps).turns, limit, window)
    decreases |steps|
  {
    if steps != [] {
      var before := steps[..|steps| - 1];
      EarlierAllows(parts, rows, Run(parts, rows, before), steps[|steps| - 1], limit, window);
      RunIsLimited(parts, rows, before, limit, window);
      RunHoldsHanded(parts, rows, before);
      StepIsLimited(parts, rows, Run(parts, rows, before), steps[|steps| - 1], limit, window);
    }
  }

  // Of the key's requests only those let through are sent upstream or get an answer from behind the
  // limiter, and no request is sent upstream twice.
  ghost predicate OnlyPassedGoOn<D, P>(s: State<D, P>, chats: ChatPipeline.State<P>) {
    && (forall c | c in chats.calls && c.pid in s.mine :: c.pid in s.passed)
    && (forall r | r in chats.replies && r.pid in s.mine && ChatPipeline.PastLimiter(r.outcome) :: r.pid in s.passed)
    && (forall i, j | 0 <= i < j < |chats.calls| :: chats.calls[i].pid != chats.calls[j].pid)
  }

  /** Over every run, whatever fails and however policies change in the meantime: of one key's requests,
      at most k * limit + limit - 1 of those counted within k windows get past the limiter, `limit` being
      the largest and `window` the shortest that any policy handed out says. Only those are ever sent
      upstream or get any answer but access control's and the limiter's own, and none is sent upstream
      twice. */
  lemma KeyIsBounded<D(!new), P(!new)>(
    parts: Parts<D, P>, rows: CacheAside.Table<D>, steps: seq<Step<D, P>>, limit: nat, window: nat, t: nat, k: nat)
    requires window > 0 && Allows(parts, rows, Run(parts, rows, steps), limit, window)
    ensures var s := Run(parts, rows, steps);
            |Within(s.passed, t, t + k * window)| <= k * limit + (if limit == 0 then 0 else limit - 1)
    ensures OnlyPassedGoOn(Run(parts, rows, steps), Chats(parts, Run(parts, rows, steps)))
  {
    var s := Run(parts, rows, steps);
    RunKeepsInv(parts, rows, steps);
    RunIsLimited(parts, rows, steps, limit, window);
    RateLimiter.MixedBound(limit, window, s.turns, t, k);
    assert Tallies(s.passed, Counter(s).passes);
    RecordedGoOn(parts, s);
  }

  lemma RecordedGoOn<D(!new), P(!new)>(parts: Parts<D, P>, s: State<D, P>)
    requires Recorded(s)
    ensures OnlyPassedGoOn(s, Chats(parts, s))
  {
    var chats := Chats(parts, s);
    ChatPipeline.RunIsRooted(parts.guards, s.chat);
    ChatPipeline.RunAsksOnce(parts.guards, s.chat);
    forall c | c in chats.calls && c.pid in s.mine
      ensures c.pid in s.passed
    {
      assert ChatPipeline.Began(s.chat, c.pid, c.request, c.policy);
    }
    forall r | r in chats.replies && ChatPipeline.PastLimiter(r.outcome) && r.pid in s.mine
      ensures r.pid in s.passed
    {
      assert ChatPipeline.Began(s.chat, r.pid, r.request, r.policy);
    }
  }

  // ----- Requests do go through -----

  /** With no live key a first request is counted, waits for its EXPIRE, and then begins, let through. */
  lemma FirstRequestPasses<D(!new), P(!new)>(
    parts: Parts<D, P>, rows: CacheAside.Table<D>, s: State<D, P>, pid: nat, r: ChatPipeline.Request, answer: nat)
    requires Inv(s) && Fresh(parts, rows, s, pid, answer)
    requires var p := Policies(parts, rows, s).answers[answer].policy;
             parts.guards.allowed(r, p) && parts.limit(p) >= 1
    requires !RateLimiter.Live(Counter(s).key, Counter(s).now)
    ensures var p := Policies(parts, rows, s).answers[answer].policy;
            var counted := Apply(parts, rows, s, Arrive(pid, r, answer, Works));
            var t := Apply(parts, rows, counted, Settle(pid, Works));
            && pid in counted.counting && counted.chat == s.chat
            && pid in t.passed && t.passed[pid] == Counter(s).now
            && t.chat == s.chat + [ChatPipeline.Begin(pid, r, p, ChatPipeline.Pass)]
  {
    var p := Policies(parts, rows, s).answers[answer].policy;
    var c := Counter(s);
    var incr := RateLimiter.Turn(RateLimiter.Incr(pid, Works), parts.limit(p), parts.window(p));
    var counted := Apply(parts, rows, s, Arrive(pid, r, answer, Works));
    TurnSnoc(s.turns, incr);
    assert pid !in c.waiting;
    assert Counter(counted).waiting[pid] == RateLimiter.Waiting(c.now);
    var v := DecisionBegins(counted.(counting := counted.counting - {pid}), pid, r, p,
                            RateLimiter.Turn(RateLimiter.Expire(pid, Works), parts.limit(p), parts.window(p)), Works);
  }

  /** With a live key the next request begins at once, and is let through if and only if the count it
      brings the key to is within its own policy's limit. */
  lemma NextRequestIsDecided<D(!new), P(!new)>(
    parts: Parts<D, P>, rows: CacheAside.Table<D>, s: State<D, P>, pid: nat, r: ChatPipeline.Request, answer: nat)
    requires Inv(s) && Fresh(parts, rows, s, pid, answer)
    requires parts.guards.allowed(r, Policies(parts, rows, s).answers[answer].policy)
    requires RateLimiter.Live(Counter(s).key, Counter(s).now) && Counter(s).key.value.count >= 1
    ensures var p := Policies(parts, rows, s).answers[answer].policy;
            var t := Apply(parts, rows, s, Arrive(pid, r, answer, Works));
            && (pid in t.passed <==> Counter(s).key.value.count + 1 <= parts.limit(p))
            && t.chat == s.chat + [ChatPipeline.Begin(pid, r, p, if pid in t.passed then ChatPipeline.Pass
                                                                 else ChatPipeline.Exceeded)]
  {
    var p := Policies(parts, rows, s).answers[answer].policy;
    var incr := RateLimiter.Turn(RateLimiter.Incr(pid, Works), parts.limit(p), parts.window(p));
    assert pid !in Counter(s).waiting;
    var v := DecisionBegins(Known(s, pid), pid, r, p, incr, Works);
  }
}
