/**
 The OAuth device flow (sections 3.4 and 3.5 of RFC 8628) of `oauth_microsoft.py` and
 `oauth_google.py`: two dictionaries with expiry, shared by the threads of the server.
 The two modules differ in the default lifetime of a device code only.
 */
module DeviceFlow {
  import opened Prelude

  type FlowId = string

  datatype Flow = Flow(user: nat, deviceCode: string, userCode: string, verificationUri: string, expiresAt: real, interval: int)

  datatype Tokens = Tokens(access: string, refresh: string, expiresIn: int)

  datatype Completed = Completed(user: nat, tokens: Tokens, expiresAt: real)

  /** `_COMPLETED_FLOW_TTL_SECONDS` */
  const COMPLETED_TTL := 600.0

  const MICROSOFT_LIFETIME := 900.0
  const GOOGLE_LIFETIME := 1800.0

  /** `_pending_flows` and `_completed_flows` */
  datatype Store = Store(pending: map<FlowId, Flow>, completed: map<FlowId, Completed>)

  /** The device-authorization response; lifetime and interval are optional. */
  datatype Grant = Grant(deviceCode: string, userCode: string, verificationUri: string, expiresIn: Option<real>, interval: Option<int>)

  /** The token endpoint's answer, as far as the code tells answers apart. */
  datatype Reply =
    | Granted(tokens: Tokens)   // status 200 with the three token fields
    | Incomplete                // status 200 lacking one of them: a KeyError after the flow was popped
    | AuthorizationPending
    | SlowDown
    | ExpiredToken
    | OtherError
    | NotJson                   // the body cannot be decoded: an exception before anything changes

  datatype PollCheck = Complete | NotFound | Expired | Send(deviceCode: string)

  datatype PollResult = Done | StillPending | FlowExpired | FlowFailed | FlowNotFound | Raised

  predicate Is200(r: Reply) { r.Granted? || r.Incomplete? }

  // ---------------------------------------------------------------- what each operation does to the store

  function ExpiredFlows(pending: map<FlowId, Flow>, now: real): set<FlowId> {
    set id | id in pending && now > pending[id].expiresAt
  }

  function ExpiredTokens(completed: map<FlowId, Completed>, now: real): set<FlowId> {
    set id | id in completed && now > completed[id].expiresAt
  }

  /** `_purge_expired` */
  function Purged(s: Store, now: real): Store {
    Store(s.pending - ExpiredFlows(s.pending, now), s.completed - ExpiredTokens(s.completed, now))
  }

  function Started(s: Store, id: FlowId, user: nat, g: Grant, clock: real, lifetime: real): Store {
    var flow := Flow(user, g.deviceCode, g.userCode, g.verificationUri,
                     clock + (if g.expiresIn.Some? then g.expiresIn.value else lifetime),
                     if g.interval.Some? then g.interval.value else 5);
    s.(pending := s.pending[id := flow])
  }

  /** A flow as the authorization server grants it; without a lifetime or an interval it has the default one. */
  predicate IsGranted(flow: Flow, user: nat, g: Grant, clock: real, lifetime: real) {
    && flow.user == user && flow.deviceCode == g.deviceCode && flow.userCode == g.userCode && flow.verificationUri == g.verificationUri
    && flow.expiresAt == clock + (match g.expiresIn case None => lifetime case Some(seconds) => seconds)
    && flow.interval == match g.interval case None => 5 case Some(seconds) => seconds
  }

  /** `poll_device_flow` up to the request. */
  function Checked(s: Store, id: FlowId, user: nat, now: real): (Store, PollCheck) {
    if id in s.completed then (s, if s.completed[id].user != user then NotFound else Complete)
    else if id !in s.pending || s.pending[id].user != user then (s, NotFound)
    else if now > s.pending[id].expiresAt then (s.(pending := s.pending - {id}), Expired)
    else (s, Send(s.pending[id].deviceCode))
  }

  /** `poll_device_flow` from the answer on. */
  function Answered(s: Store, id: FlowId, user: nat, reply: Reply, now: real): (Store, PollResult) {
    var popped := s.(pending := s.pending - {id});
    match reply
    case Granted(tokens) => (popped.(completed := s.completed[id := Completed(user, tokens, now + COMPLETED_TTL)]), Done)
    case Incomplete => (popped, Raised)
    case AuthorizationPending => (s, StillPending)
    case SlowDown => (s, StillPending)
    case ExpiredToken => (popped, FlowExpired)
    case OtherError => (popped, FlowFailed)
    case NotJson => (s, Raised)
  }

  /** `take_completed_tokens` up to the lookup. */
  function LookedUp(s: Store, id: FlowId, user: nat, now: real): (Store, Option<Completed>) {
    var p := Purged(s, now);
    (p, if id in p.completed && p.completed[id].user == user then Some(p.completed[id]) else None)
  }

  /** Its `del`, which raises if another thread was faster. */
  function Deleted(s: Store, id: FlowId, found: Completed): (Store, Option<Tokens>) {
    if id in s.completed then (s.(completed := s.completed - {id}), Some(found.tokens)) else (s, None)
  }

  // ---------------------------------------------------------------- the two dictionaries, changed in place

  class DeviceFlows {
    const lifetime: real
    var pending: map<FlowId, Flow>
    var completed: map<FlowId, Completed>

    /** The dictionaries of `oauth_microsoft.py`. */
    constructor Microsoft()
      ensures lifetime == 900.0 && State() == Store(map[], map[])
    {
      lifetime, pending, completed := MICROSOFT_LIFETIME, map[], map[];
    }

    /** The dictionaries of `oauth_google.py`. */
    constructor Google()
      ensures lifetime == 1800.0 && State() == Store(map[], map[])
    {
      lifetime, pending, completed := GOOGLE_LIFETIME, map[], map[];
    }

    function State(): Store
      reads this
    {
      Store(pending, completed)
    }

    method PurgeExpired(now: real)
      modifies this
      ensures State() == Purged(old(State()), now)
    {
      var stale := ExpiredFlows(pending, now);
      ghost var dead := stale;
      while stale != {}
        invariant stale <= dead && pending == old(pending) - (dead - stale) && completed == old(completed)
        decreases |stale|
      {
        var id :| id in stale;
        pending := pending - {id};
        stale := stale - {id};
      }
      var done := ExpiredTokens(completed, now);
      ghost var gone := done;
      while done != {}
        invariant done <= gone && completed == old(completed) - (gone - done) && pending == old(pending) - dead
        decreases |done|
      {
        var id :| id in done;
        completed := completed - {id};
        done := done - {id};
      }
    }

    /** `start_device_flow` once the authorization server has answered. */
    method StartDeviceFlow(id: FlowId, user: nat, grant: Grant, clock: real) returns (flow: Flow)
      modifies this
      ensures State() == Started(old(State()), id, user, grant, clock, lifetime)
      ensures State() == old(State()).(pending := old(pending)[id := flow]) && IsGranted(flow, user, grant, clock, lifetime)
    {
      var expiresIn := if grant.expiresIn.Some? then grant.expiresIn.value else lifetime;
      var interval := if grant.interval.Some? then grant.interval.value else 5;
      flow := Flow(user, grant.deviceCode, grant.userCode, grant.verificationUri, clock + expiresIn, interval);
      pending := pending[id := flow];
    }

    method PollSend(id: FlowId, user: nat, now: real) returns (check: PollCheck)
      modifies this
      ensures (State(), check) == Checked(old(State()), id, user, now)
    {
      if id in completed {
        if completed[id].user != user { return NotFound; }
        return Complete;
      }
      if id !in pending || pending[id].user != user { return NotFound; }
      if now > pending[id].expiresAt {
        pending := pending - {id};
        return Expired;
      }
      check := Send(pending[id].deviceCode);
    }

    method PollReply(id: FlowId, user: nat, reply: Reply, now: real) returns (result: PollResult)
      modifies this
      ensures (State(), result) == Answered(old(State()), id, user, reply, now)
    {
      match reply
      case NotJson => return Raised;
      case Granted(tokens) =>
        pending := pending - {id};
        completed := completed[id := Completed(user, tokens, now + COMPLETED_TTL)];
        return Done;
      case Incomplete =>
        pending := pending - {id};
        return Raised;
      case AuthorizationPending => return StillPending;
      case SlowDown => return StillPending;
      case ExpiredToken =>
        pending := pending - {id};
        return FlowExpired;
      case OtherError =>
        pending := pending - {id};
        return FlowFailed;
    }

    /** A poll that no other call overlaps. */
    method PollDeviceFlow(id: FlowId, user: nat, now: real, reply: Reply, later: real) returns (result: PollResult)
      modifies this
      ensures var (s, check) := Checked(old(State()), id, user, now);
              if check.Send? then (State(), result) == Answered(s, id, user, reply, later)
              else State() == s && result == (if check == Complete then Done else if check == Expired then FlowExpired else FlowNotFound)
    {
      var check := PollSend(id, user, now);
      match check
      case Complete => result := Done;
      case NotFound => result := FlowNotFound;
      case Expired => result := FlowExpired;
      case Send(_) => result := PollReply(id, user, reply, later);
    }

    method TakeLookup(id: FlowId, user: nat, now: real) returns (found: Option<Completed>)
      modifies this
      ensures (State(), found) == LookedUp(old(State()), id, user, now)
    {
      PurgeExpired(now);
      found := if id in completed && completed[id].user == user then Some(completed[id]) else None;
    }

    method TakeDelete(id: FlowId, found: Completed) returns (tokens: Option<Tokens>)
      modifies this
      ensures (State(), tokens) == Deleted(old(State()), id, found)
    {
      if id !in completed { return None; }
      completed := completed - {id};
      tokens := Some(found.tokens);
    }

    /** A take that no other call overlaps. */
    method TakeCompletedTokens(id: FlowId, user: nat, now: real) returns (tokens: Option<Tokens>)
      modifies this
      ensures var (s, found) := LookedUp(old(State()), id, user, now);
              State() == s.(completed := if found.Some? then s.completed - {id} else s.completed)
              && tokens == if found.Some? then Some(found.value.tokens) else None
    {
      var found := TakeLookup(id, user, now);
      if found.None? { return None; }
      tokens := TakeDelete(id, found.value);
    }
  }

  // ---------------------------------------------------------------- interleavings

  /** A poll whose request is under way, and a take between lookup and delete. */
  datatype Polling = Polling(id: FlowId, user: nat)
  datatype Taking = Taking(id: FlowId, found: Completed)

  /**
   The store, the calls under way, and what has happened: who started each flow, the 200
   answers received and the token deliveries made, by flow, and the tokens granted and delivered.
   */
  datatype World = World(
    store: Store,
    polls: map<nat, Polling>,
    takes: map<nat, Taking>,
    owner: map<FlowId, nat>,
    replies: multiset<FlowId>,
    deliveries: multiset<FlowId>,
    granted: set<(FlowId, Tokens)>,
    delivered: set<(FlowId, nat, Tokens)>)

  const INITIAL := World(Store(map[], map[]), map[], map[], map[], multiset{}, multiset{}, {}, {})

  /** One atomic step of some thread. */
  datatype Action =
    | Purge(now: real)
    | Start(newId: FlowId, starter: nat, grant: Grant, clock: real, lifetime: real)
    | BeginPoll(thread: nat, id: FlowId, user: nat, now: real)
    | EndPoll(thread: nat, reply: Reply, now: real)
    | BeginTake(thread: nat, id: FlowId, user: nat, now: real)
    | EndTake(thread: nat)

  /** A step that is not possible leaves the world alone; a new flow id is one never used before. */
  function Perform(w: World, a: Action): World {
    match a
    case Purge(now) => w.(store := Purged(w.store, now))
    case Start(id, user, grant, clock, lifetime) =>
      if id in w.owner then w
      else w.(store := Started(w.store, id, user, grant, clock, lifetime), owner := w.owner[id := user])
    case BeginPoll(thread, id, user, now) =>
      if thread in w.polls || thread in w.takes then w
      else
        var (s, check) := Checked(w.store, id, user, now);
        w.(store := s, polls := if check.Send? then w.polls[thread := Polling(id, user)] else w.polls)
    case EndPoll(thread, reply, now) =>
      if thread !in w.polls then w
      else
        var p := w.polls[thread];
        w.(store := Answered(w.store, p.id, p.user, reply, now).0,
           polls := w.polls - {thread},
           replies := if Is200(reply) then w.replies + multiset{p.id} else w.replies,
           granted := if reply.Granted? then w.granted + {(p.id, reply.tokens)} else w.granted)
    case BeginTake(thread, id, user, now) =>
      if thread in w.polls || thread in w.takes then w
      else
        var (s, found) := LookedUp(w.store, id, user, now);
        w.(store := s, takes := if found.Some? then w.takes[thread := Taking(id, found.value)] else w.takes)
    case EndTake(thread) =>
      if thread !in w.takes then w
      else
        var t := w.takes[thread];
        var (s, tokens) := Deleted(w.store, t.id, t.found);
        w.(store := s,
           takes := w.takes - {thread},
           deliveries := if tokens.Some? then w.deliveries + multiset{t.id} else w.deliveries,
           delivered := if tokens.Some? then w.delivered + {(t.id, t.found.user, tokens.value)} else w.delivered)
  }

  function Run(w: World, actions: seq<Action>): World {
    if actions == [] then w else Perform(Run(w, actions[..|actions| - 1]), actions[|actions| - 1])
  }

  ghost predicate OwnedPending(w: World) {
    forall id :: id in w.store.pending ==> id in w.owner && w.store.pending[id].user == w.owner[id]
  }

  ghost predicate OwnedTokens(w: World) {
    forall id :: id in w.store.completed ==> id in w.owner && w.store.completed[id].user == w.owner[id]
  }

  ghost predicate OwnedCalls(w: World) {
    && (forall th :: th in w.polls ==> w.polls[th].id in w.owner && w.polls[th].user == w.owner[w.polls[th].id])
    && (forall th :: th in w.takes ==> w.takes[th].id in w.owner && w.takes[th].found.user == w.owner[w.takes[th].id])
    && (forall d :: d in w.delivered ==> d.0 in w.owner && d.1 == w.owner[d.0])
  }

  /** Every flow, call and delivery belongs to the user who started the flow. */
  ghost predicate Owned(w: World) { OwnedPending(w) && OwnedTokens(w) && OwnedCalls(w) }

  /** Every set of tokens in the store, in a take or delivered was granted for its flow. */
  ghost predicate Genuine(w: World) {
    && (forall id :: id in w.store.completed ==> (id, w.store.completed[id].tokens) in w.granted)
    && (forall th :: th in w.takes ==> (w.takes[th].id, w.takes[th].found.tokens) in w.granted)
    && (forall d :: d in w.delivered ==> (d.0, d.2) in w.granted)
  }

  function Held(s: Store, id: FlowId): nat { if id in s.completed then 1 else 0 }

  ghost predicate Safe(w: World) {
    && Exclusive(w)
    && Owned(w)
    && Genuine(w)
    && Counted(w)
  }

  ghost predicate Exclusive(w: World) { w.store.pending.Keys !! w.store.completed.Keys }

  ghost predicate Counted(w: World) {
    forall id :: w.deliveries[id] + Held(w.store, id) <= w.replies[id]
  }

  lemma StepIsExclusive(w: World, a: Action)
    requires Exclusive(w) && Owned(w)
    ensures Exclusive(Perform(w, a))
  {
  }

  lemma PendingIsOwned(w: World, a: Action)
    requires OwnedPending(w)
    ensures OwnedPending(Perform(w, a))
  {
  }

  lemma TokensAreOwned(w: World, a: Action)
    requires Owned(w)
    ensures OwnedTokens(Perform(w, a))
  {
  }

  lemma CallsAreOwned(w: World, a: Action)
    requires Owned(w)
    ensures OwnedCalls(Perform(w, a))
  {
    match a
    case Purge(_) =>
    case Start(_, _, _, _, _) =>
    case BeginPoll(_, _, _, _) =>
    case EndPoll(_, _, _) =>
    case BeginTake(_, _, _, _) =>
    case EndTake(_) =>
  }

  lemma StepIsGenuine(w: World, a: Action)
    requires Genuine(w)
    ensures Genuine(Perform(w, a))
  {
    match a
    case Purge(_) =>
    case Start(_, _, _, _, _) =>
    case BeginPoll(_, _, _, _) =>
    case EndPoll(_, _, _) =>
    case BeginTake(_, _, _, _) =>
    case EndTake(_) =>
  }

  lemma StepIsCounted(w: World, a: Action)
    requires Counted(w)
    ensures Counted(Perform(w, a))
  {
    var next := Perform(w, a);
    forall id ensures next.deliveries[id] + Held(next.store, id) <= next.replies[id] {
      assert w.deliveries[id] + Held(w.store, id) <= w.replies[id];
      CountsStep(w, a, id);
    }
  }

  lemma CountsStep(w: World, a: Action, id: FlowId)
    requires w.deliveries[id] + Held(w.store, id) <= w.replies[id]
    ensures Perform(w, a).deliveries[id] + Held(Perform(w, a).store, id) <= Perform(w, a).replies[id]
  {
    match a
    case Purge(_) =>
    case Start(_, _, _, _, _) =>
    case BeginPoll(_, _, _, _) =>
    case EndPoll(_, _, _) =>
    case BeginTake(_, _, _, _) =>
    case EndTake(_) =>
  }

  lemma StepIsSafe(w: World, a: Action)
    requires Safe(w)
    ensures Safe(Perform(w, a))
  {
    StepIsExclusive(w, a);
    PendingIsOwned(w, a);
    TokensAreOwned(w, a);
    CallsAreOwned(w, a);
    StepIsGenuine(w, a);
    StepIsCounted(w, a);
  }

  /**
   Over every interleaving: no flow is both pending and completed, everything belongs to the
   user who started the flow, only granted tokens are delivered, and no flow has more
   deliveries than 200 answers.
   */
  lemma {:induction false} RunIsSafe(actions: seq<Action>)
    ensures Safe(Run(INITIAL, actions))
    decreases |actions|
  {
    if actions != [] {
      RunIsSafe(actions[..|actions| - 1]);
      StepIsSafe(Run(INITIAL, actions[..|actions| - 1]), actions[|actions| - 1]);
    }
  }

  // ---------------------------------------------------------------- one delivery per flow

  /** The step begins a poll that goes on to the token server. */
  predicate Begins(w: World, a: Action) {
    a.BeginPoll? && a.thread !in w.polls && a.thread !in w.takes && Checked(w.store, a.id, a.user, a.now).1.Send?
  }

  /** The step begins no poll of a flow of which another poll is under way. */
  ghost predicate Alone(w: World, a: Action) {
    Begins(w, a) ==> forall th :: th in w.polls ==> w.polls[th].id != a.id
  }

  ghost predicate WithoutOverlap(actions: seq<Action>) {
    forall n :: 0 <= n < |actions| ==> Alone(Run(INITIAL, actions[..n]), actions[n])
  }

  predicate AtMostOneAnswer(w: World, id: FlowId) {
    w.replies[id] <= 1 && (w.replies[id] == 1 ==> id in w.owner && id !in w.store.pending)
  }

  ghost predicate OneAnswer(w: World) { forall id :: AtMostOneAnswer(w, id) }

  ghost predicate PollsApart(w: World) {
    && (forall th :: th in w.polls ==> w.replies[w.polls[th].id] == 0)
    && (forall th, th' :: th in w.polls && th' in w.polls && th != th' ==> w.polls[th].id != w.polls[th'].id)
  }

  /** A flow has at most one 200 answer, and after it is neither pending nor being polled. */
  ghost predicate AnsweredOnce(w: World) { OneAnswer(w) && PollsApart(w) }

  lemma AnswerStep(w: World, a: Action, id: FlowId)
    requires AtMostOneAnswer(w, id)
    requires a.EndPoll? && a.thread in w.polls && w.polls[a.thread].id == id ==> w.replies[id] == 0 && id in w.owner
    ensures AtMostOneAnswer(Perform(w, a), id)
  {
    match a
    case Purge(_) =>
    case Start(_, _, _, _, _) =>
    case BeginPoll(_, _, _, _) =>
    case EndPoll(_, _, _) =>
    case BeginTake(_, _, _, _) =>
    case EndTake(_) =>
  }

  lemma StepKeepsOneAnswer(w: World, a: Action)
    requires Owned(w) && AnsweredOnce(w)
    ensures OneAnswer(Perform(w, a))
  {
    forall id ensures AtMostOneAnswer(Perform(w, a), id) {
      assert AtMostOneAnswer(w, id);
      AnswerStep(w, a, id);
    }
  }

  lemma StepKeepsPollsApart(w: World, a: Action)
    requires Owned(w) && AnsweredOnce(w) && Alone(w, a)
    ensures PollsApart(Perform(w, a))
  {
    if a.BeginPoll? {
      assert AtMostOneAnswer(w, a.id);
    } else if a.EndPoll? && a.thread in w.polls {
      assert AtMostOneAnswer(w, w.polls[a.thread].id);
    }
  }

  /** When no two polls of a flow overlap, its tokens are delivered at most once, in every interleaving. */
  lemma {:induction false} DeliveredAtMostOnce(actions: seq<Action>, id: FlowId)
    requires WithoutOverlap(actions)
    ensures AnsweredOnce(Run(INITIAL, actions)) && Run(INITIAL, actions).deliveries[id] <= 1
    decreases |actions|
  {
    RunIsSafe(actions);
    if actions != [] {
      var before := actions[..|actions| - 1];
      forall n | 0 <= n < |before| ensures Alone(Run(INITIAL, before[..n]), before[n]) {
        assert before[..n] == actions[..n] && before[n] == actions[n];
      }
      DeliveredAtMostOnce(before, id);
      RunIsSafe(before);
      StepKeepsOneAnswer(Run(INITIAL, before), actions[|actions| - 1]);
      StepKeepsPollsApart(Run(INITIAL, before), actions[|actions| - 1]);
    }
    var w := Run(INITIAL, actions);
    assert w.deliveries[id] + Held(w.store, id) <= w.replies[id] && AtMostOneAnswer(w, id);
  }

  lemma RunNext(w: World, actions: seq<Action>, a: Action)
    ensures Run(w, actions + [a]) == Perform(Run(w, actions), a)
  {
    assert (actions + [a])[..|actions|] == actions;
  }

  lemma {:induction false} RunConcat(w: World, a: seq<Action>, b: seq<Action>)
    ensures Run(w, a + b) == Run(Run(w, a), b)
    decreases |b|
  {
    if b == [] {
      assert a + b == a;
    } else {
      RunConcat(w, a, b[..|b| - 1]);
      assert (a + b)[..|a + b| - 1] == a + b[..|b| - 1];
    }
  }

  predicate NoPoll(actions: seq<Action>) {
    forall n :: 0 <= n < |actions| ==> !actions[n].BeginPoll?
  }

  /** No thread polls and takes at once. */
  ghost predicate OneCall(w: World) { w.polls.Keys !! w.takes.Keys }

  lemma {:induction false} RunKeepsOneCall(actions: seq<Action>)
    ensures OneCall(Run(INITIAL, actions))
    decreases |actions|
  {
    if actions != [] { RunKeepsOneCall(actions[..|actions| - 1]); }
  }

  /** The clock that a step reads, if it reads one. */
  function ClockOf(a: Action): Option<real> {
    match a
    case Purge(now) => Some(now)
    case Start(_, _, _, clock, _) => Some(clock)
    case BeginPoll(_, _, _, now) => Some(now)
    case EndPoll(_, _, now) => Some(now)
    case BeginTake(_, _, _, now) => Some(now)
    case EndTake(_) => None
  }

  /** No clock of the run is before `now` or before an earlier one of the run. */
  predicate InTime(actions: seq<Action>, now: real) {
    && (forall n :: 0 <= n < |actions| && ClockOf(actions[n]).Some? ==> ClockOf(actions[n]).value >= now)
    && (forall m, n :: 0 <= m < n < |actions| && ClockOf(actions[m]).Some? && ClockOf(actions[n]).Some?
          ==> ClockOf(actions[m]).value <= ClockOf(actions[n]).value)
  }

  /** No step of the run begins a poll, and every clock is `now`. */
  predicate AtOnce(actions: seq<Action>, now: real) {
    forall n :: 0 <= n < |actions| ==> !actions[n].BeginPoll? && (ClockOf(actions[n]) == None || ClockOf(actions[n]) == Some(now))
  }

  lemma AtOnceConcat(a: seq<Action>, b: seq<Action>, now: real)
    requires AtOnce(a, now) && AtOnce(b, now)
    ensures AtOnce(a + b, now)
  {
  }

  lemma AtOnceIsInTime(actions: seq<Action>, now: real)
    requires AtOnce(actions, now)
    ensures NoPoll(actions) && InTime(actions, now)
  {
  }

  /** A poll under way can be answered with tokens, and its thread can take them at once. */
  lemma GrantAndTake(w: World, thread: nat, tokens: Tokens, now: real, more: seq<Action>)
    requires thread in w.polls && thread !in w.takes
    requires more == [EndPoll(thread, Granted(tokens), now), BeginTake(thread, w.polls[thread].id, w.polls[thread].user, now), EndTake(thread)]
    ensures var id, end := w.polls[thread].id, Run(w, more);
            end.deliveries[id] == w.deliveries[id] + 1 && end.polls == w.polls - {thread} && end.takes.Keys == w.takes.Keys
    ensures AtOnce(more, now)
  {
    var id, user := w.polls[thread].id, w.polls[thread].user;
    var c := Completed(user, tokens, now + COMPLETED_TTL);
    var answered := Perform(w, more[0]);
    assert answered.store.completed[id] == c;
    var found := Perform(answered, more[1]);
    assert found.takes == w.takes[thread := Taking(id, c)];
    assert more[..1][..0] == [] && more[..2][..1] == more[..1] && more[..3] == more && more[..3][..2] == more[..2];
    assert Run(w, []) == w && Run(w, more[..1]) == answered && Run(w, more[..2]) == found;
  }

  /**
   While two polls of one flow are under way, whatever happened before and whatever time it is,
   two sets of tokens can still be delivered for it, without any further poll or delay.
   */
  lemma OverlapDeliversTwice(w: World, th: nat, th': nat, t: Tokens, t': Tokens, now: real) returns (more: seq<Action>)
    requires OneCall(w) && th != th' && th in w.polls && th' in w.polls && w.polls[th].id == w.polls[th'].id
    ensures AtOnce(more, now)
    ensures Run(w, more).deliveries[w.polls[th].id] == w.deliveries[w.polls[th].id] + 2
  {
    var id := w.polls[th].id;
    var one := [EndPoll(th, Granted(t), now), BeginTake(th, id, w.polls[th].user, now), EndTake(th)];
    var two := [EndPoll(th', Granted(t'), now), BeginTake(th', id, w.polls[th'].user, now), EndTake(th')];
    GrantAndTake(w, th, t, now, one);
    GrantAndTake(Run(w, one), th', t', now, two);
    RunConcat(w, one, two);
    AtOnceConcat(one, two, now);
    more := one + two;
  }

  /** From `now` on, by a clock that does not go back and without a further poll, the flow can come to two deliveries. */
  ghost predicate CanDeliverTwice(actions: seq<Action>, id: FlowId, now: real, more: seq<Action>) {
    NoPoll(more) && InTime(more, now) && Run(Run(INITIAL, actions), more).deliveries[id] >= 2
  }

  lemma StillApart(actions: seq<Action>, more: seq<Action>)
    requires WithoutOverlap(actions) && NoPoll(more)
    ensures WithoutOverlap(actions + more)
  {
    var all := actions + more;
    forall n | 0 <= n < |all| ensures Alone(Run(INITIAL, all[..n]), all[n]) {
      if n < |actions| { assert all[..n] == actions[..n] && all[n] == actions[n]; }
    }
  }

  /**
   Overlap is the exact condition: after a run without any, the next poll of a flow makes two
   deliveries possible, at whatever time from then on and without a poll after it, if and only if
   another poll of it is under way.
   */
  lemma DeliversTwiceIffOverlap(past: seq<Action>, a: Action, t: Tokens, now: real)
    requires WithoutOverlap(past) && a.BeginPoll?
    ensures (exists more :: CanDeliverTwice(past + [a], a.id, now, more)) <==> !Alone(Run(INITIAL, past), a)
  {
    var w, all := Run(INITIAL, past), past + [a];
    RunNext(INITIAL, past, a);
    if Alone(w, a) {
      forall n | 0 <= n < |all| ensures Alone(Run(INITIAL, all[..n]), all[n]) {
        assert all[..n] == past[..n];
        if n < |past| { assert all[n] == past[n]; } else { assert past[..n] == past; }
      }
      forall more | NoPoll(more) ensures !CanDeliverTwice(all, a.id, now, more) {
        StillApart(all, more);
        DeliveredAtMostOnce(all + more, a.id);
        RunConcat(INITIAL, all, more);
      }
    } else {
      var th :| th in w.polls && w.polls[th].id == a.id;
      RunKeepsOneCall(all);
      var more := OverlapDeliversTwice(Run(INITIAL, all), th, a.thread, t, t, now);
      AtOnceIsInTime(more, now);
      assert CanDeliverTwice(all, a.id, now, more);
    }
  }

  // ---------------------------------------------------------------- which steps take a flow's tokens away

  /** The clock of a step that purges. */
  function PurgeClock(w: World, a: Action): Option<real> {
    match a
    case Purge(now) => Some(now)
    case BeginTake(thread, _, _, now) => if thread in w.polls || thread in w.takes then None else Some(now)
    case _ => None
  }

  /** The step purges the flow's tokens as expired, or is the delete of a take of the flow. */
  predicate Loses(w: World, a: Action, id: FlowId) {
    && id in w.store.completed
    && (|| (PurgeClock(w, a).Some? && PurgeClock(w, a).value > w.store.completed[id].expiresAt)
        || (a.EndTake? && a.thread in w.takes && w.takes[a.thread].id == id))
  }

  /** The step is a 200 answer with tokens for the flow. */
  predicate Grants(w: World, a: Action, id: FlowId) {
    a.EndPoll? && a.thread in w.polls && w.polls[a.thread].id == id && a.reply.Granted?
  }

  lemma StepHolds(w: World, a: Action, id: FlowId)
    ensures id in Perform(w, a).store.completed <==> Grants(w, a, id) || (id in w.store.completed && !Loses(w, a, id))
    ensures id in Perform(w, a).store.completed && !Grants(w, a, id) ==> Perform(w, a).store.completed[id] == w.store.completed[id]
  {
    match a
    case Purge(_) =>
    case Start(_, _, _, _, _) =>
    case BeginPoll(_, _, _, _) =>
    case EndPoll(_, _, _) =>
    case BeginTake(_, _, _, _) =>
    case EndTake(_) =>
  }

  ghost predicate NoLossFrom(w: World, actions: seq<Action>, id: FlowId, m: nat) {
    forall n :: m <= n < |actions| ==> !Loses(Run(w, actions[..n]), actions[n], id)
  }

  ghost predicate GrantedLast(w: World, actions: seq<Action>, id: FlowId, m: nat) {
    m < |actions| && Grants(Run(w, actions[..m]), actions[m], id) && NoLossFrom(w, actions, id, m + 1)
  }

  /** No step of the run takes the flow's tokens away, or a later 200 answer brings new ones that none does. */
  ghost predicate Remains(w: World, actions: seq<Action>, id: FlowId) {
    NoLossFrom(w, actions, id, 0) || exists m: nat :: GrantedLast(w, actions, id, m)
  }

  lemma NoLossNext(w: World, actions: seq<Action>, a: Action, id: FlowId, m: nat)
    requires m <= |actions|
    ensures NoLossFrom(w, actions + [a], id, m) <==> NoLossFrom(w, actions, id, m) && !Loses(Run(w, actions), a, id)
  {
    var all := actions + [a];
    assert all[..|actions|] == actions && all[|actions|] == a;
    assert forall n :: 0 <= n < |actions| ==> all[..n] == actions[..n] && all[n] == actions[n];
    if NoLossFrom(w, all, id, m) { assert !Loses(Run(w, all[..|actions|]), all[|actions|], id); }
  }

  lemma RemainsNext(w: World, actions: seq<Action>, a: Action, id: FlowId)
    ensures Remains(w, actions + [a], id)
       <==> Grants(Run(w, actions), a, id) || (Remains(w, actions, id) && !Loses(Run(w, actions), a, id))
  {
    var all, n := actions + [a], |actions|;
    assert all[..n] == actions && all[n] == a;
    NoLossNext(w, actions, a, id, 0);
    forall m: nat | m < n ensures GrantedLast(w, all, id, m) <==> GrantedLast(w, actions, id, m) && !Loses(Run(w, actions), a, id) {
      assert all[..m] == actions[..m] && all[m] == actions[m];
      NoLossNext(w, actions, a, id, m + 1);
    }
    assert GrantedLast(w, all, id, n) <==> Grants(Run(w, actions), a, id);
  }

  /** After a run the flow has tokens in the store exactly if they remain. */
  lemma {:induction false} HeldIffRemains(w: World, actions: seq<Action>, id: FlowId)
    requires id in w.store.completed
    ensures id in Run(w, actions).store.completed <==> Remains(w, actions, id)
    decreases |actions|
  {
    if actions == [] {
      assert NoLossFrom(w, actions, id, 0);
    } else {
      var before, a := actions[..|actions| - 1], actions[|actions| - 1];
      HeldIffRemains(w, before, id);
      assert actions == before + [a];
      RemainsNext(w, before, a, id);
      StepHolds(Run(w, before), a, id);
    }
  }

  lemma {:induction false} TakeStays(w: World, actions: seq<Action>, thread: nat)
    requires thread in w.takes && forall n :: 0 <= n < |actions| ==> actions[n] != EndTake(thread)
    ensures thread in Run(w, actions).takes && Run(w, actions).takes[thread] == w.takes[thread]
    decreases |actions|
  {
    if actions != [] {
      var before := actions[..|actions| - 1];
      assert forall n :: 0 <= n < |before| ==> before[n] == actions[n];
      TakeStays(w, before, thread);
    }
  }

  /**
   A take that has looked its tokens up delivers exactly those tokens if and only if, until its
   delete, no expired purge and no delete of another take of the flow comes in between, or a
   later 200 answer refills the flow after the last of these. Otherwise it delivers nothing.
   */
  lemma LookupDeliversIff(w: World, thread: nat, between: seq<Action>, end: World)
    requires thread in w.takes && w.takes[thread].id in w.store.completed
    requires forall n :: 0 <= n < |between| ==> between[n] != EndTake(thread)
    requires end == Perform(Run(w, between), EndTake(thread))
    ensures var take, before := w.takes[thread], Run(w, between);
            if Remains(w, between, take.id)
            then end.deliveries == before.deliveries + multiset{take.id} && (take.id, take.found.user, take.found.tokens) in end.delivered
            else end.deliveries == before.deliveries && end.delivered == before.delivered
  {
    HeldIffRemains(w, between, w.takes[thread].id);
    TakeStays(w, between, thread);
    DeleteDelivers(Run(w, between), thread, w.takes[thread], end);
  }

  lemma DeleteDelivers(w: World, thread: nat, take: Taking, end: World)
    requires thread in w.takes && w.takes[thread] == take && end == Perform(w, EndTake(thread))
    ensures if take.id in w.store.completed
            then end.deliveries == w.deliveries + multiset{take.id} && (take.id, take.found.user, take.found.tokens) in end.delivered
            else end.deliveries == w.deliveries && end.delivered == w.delivered
  {
  }

  // ---------------------------------------------------------------- a flow stays pending

  /** The answers that leave a sign-in pending: not yet, not so fast, and one that cannot be read. */
  predicate LeavesPending(reply: Reply) { reply == AuthorizationPending || reply == SlowDown || reply == NotJson }

  /**
   What a poll that was sent makes of its answer: which answers end the flow, which result the
   caller gets, and that nothing of any other flow changes.
   */
  lemma AnswerEndsIff(s: Store, id: FlowId, user: nat, reply: Reply, now: real, s': Store, result: PollResult)
    requires id in s.pending && (s', result) == Answered(s, id, user, reply, now)
    ensures id in s'.pending <==> LeavesPending(reply)
    ensures LeavesPending(reply) ==> s' == s
    ensures s'.pending - {id} == s.pending - {id}
    ensures s'.completed == if reply.Granted? then s.completed[id := Completed(user, reply.tokens, now + 600.0)] else s.completed
    ensures result == Done <==> reply.Granted?
    ensures result == StillPending <==> reply == AuthorizationPending || reply == SlowDown
    ensures result == FlowExpired <==> reply == ExpiredToken
    ensures result == FlowFailed <==> reply == OtherError
    ensures result == Raised <==> reply == Incomplete || reply == NotJson
  {
    assert forall other :: other in s'.pending && other != id ==> other in s.pending && s'.pending[other] == s.pending[other];
  }

  /** What the flow's owner is told at the start of a poll, and when that drops the flow. */
  predicate OwnerSees(s: Store, id: FlowId, now: real, s': Store, check: PollCheck) {
    && (check == Complete <==> id in s.completed)
    && (check == Expired <==> id in s.pending && now > s.pending[id].expiresAt)
    && (check.Send? <==> id in s.pending && now <= s.pending[id].expiresAt)
    && (check.Send? ==> check.deviceCode == s.pending[id].deviceCode)
    && s' == if check == Expired then s.(pending := s.pending - {id}) else s
  }

  lemma OwnerPolls(w: World, id: FlowId, user: nat, now: real)
    requires Safe(w) && id in w.owner && w.owner[id] == user
    ensures var (s, check) := Checked(w.store, id, user, now); OwnerSees(w.store, id, now, s, check)
  {
  }

  /** In any run, a poll by the flow's owner begins so. */
  lemma PollAnswers(past: seq<Action>, id: FlowId, user: nat, now: real, w: World)
    requires w == Run(INITIAL, past) && id in w.owner && w.owner[id] == user
    ensures var (s, check) := Checked(w.store, id, user, now); OwnerSees(w.store, id, now, s, check)
  {
    RunIsSafe(past);
    OwnerPolls(w, id, user, now);
  }

  /** In any run, whoever did not start a flow polls and takes as if there were none, and changes nothing by polling. */
  lemma StrangersFindNothing(past: seq<Action>, id: FlowId, user: nat, now: real, w: World)
    requires w == Run(INITIAL, past) && !(id in w.owner && w.owner[id] == user)
    ensures Checked(w.store, id, user, now) == (w.store, NotFound)
    ensures LookedUp(w.store, id, user, now).1 == None
  {
    RunIsSafe(past);
  }

  /** The step starts the flow. */
  predicate StartsFlow(w: World, a: Action, id: FlowId) { a.Start? && a.newId == id && id !in w.owner }

  /** The step purges the flow as expired, or is its owner's poll past its expiry, or an answer that ends it. */
  predicate Drops(w: World, a: Action, id: FlowId) {
    && id in w.store.pending
    && (|| (PurgeClock(w, a).Some? && PurgeClock(w, a).value > w.store.pending[id].expiresAt)
        || (a.BeginPoll? && a.thread !in w.polls && a.thread !in w.takes && a.id == id && a.user == w.store.pending[id].user
            && a.now > w.store.pending[id].expiresAt)
        || (a.EndPoll? && a.thread in w.polls && w.polls[a.thread].id == id && !LeavesPending(a.reply)))
  }

  /** The flow is pending in `s'` exactly if it is in `s` and not dropped, and then it is the same. */
  predicate PendsUnless(s: Store, s': Store, id: FlowId, dropped: bool) {
    && (id in s'.pending <==> id in s.pending && !dropped)
    && (id in s'.pending ==> s'.pending[id] == s.pending[id])
  }

  lemma CheckPends(s: Store, polled: FlowId, user: nat, now: real, id: FlowId)
    requires id in s.pending ==> id !in s.completed
    ensures PendsUnless(s, Checked(s, polled, user, now).0, id,
                        id in s.pending && polled == id && user == s.pending[id].user && now > s.pending[id].expiresAt)
  {
  }

  lemma AnswerPends(s: Store, polled: FlowId, user: nat, reply: Reply, now: real, id: FlowId)
    ensures PendsUnless(s, Answered(s, polled, user, reply, now).0, id, polled == id && !LeavesPending(reply))
  {
  }

  lemma PurgePends(s: Store, now: real, id: FlowId)
    ensures PendsUnless(s, Purged(s, now), id, id in s.pending && now > s.pending[id].expiresAt)
  {
  }

  lemma StepPends(w: World, a: Action, id: FlowId)
    requires id in w.store.pending ==> id in w.owner && id !in w.store.completed
    ensures id in Perform(w, a).store.pending <==> StartsFlow(w, a, id) || (id in w.store.pending && !Drops(w, a, id))
    ensures id in Perform(w, a).store.pending && !StartsFlow(w, a, id) ==> Perform(w, a).store.pending[id] == w.store.pending[id]
  {
    match a
    case Purge(now) => PurgePends(w.store, now, id);
    case Start(_, _, _, _, _) =>
    case BeginPoll(_, polled, user, now) => CheckPends(w.store, polled, user, now, id);
    case EndPoll(thread, reply, now) =>
      if thread in w.polls { AnswerPends(w.store, w.polls[thread].id, w.polls[thread].user, reply, now, id); }
    case BeginTake(_, _, _, now) => PurgePends(w.store, now, id);
    case EndTake(_) =>
  }

  lemma OwnerStays(w: World, a: Action, id: FlowId)
    requires id in w.owner
    ensures id in Perform(w, a).owner && Perform(w, a).owner[id] == w.owner[id]
  {
  }

  ghost predicate NeverDropped(w: World, actions: seq<Action>, id: FlowId) {
    forall n :: 0 <= n < |actions| ==> !Drops(Run(w, actions[..n]), actions[n], id)
  }

  lemma NeverDroppedNext(w: World, actions: seq<Action>, a: Action, id: FlowId)
    ensures NeverDropped(w, actions + [a], id) <==> NeverDropped(w, actions, id) && !Drops(Run(w, actions), a, id)
  {
    var all, n := actions + [a], |actions|;
    assert all[..n] == actions && all[n] == a;
    assert forall k :: 0 <= k < n ==> all[..k] == actions[..k] && all[k] == actions[k];
    if NeverDropped(w, all, id) { assert !Drops(Run(w, all[..n]), all[n], id); }
  }

  /** Over any run, a pending flow is pending in the end exactly if no step drops it, and then it is unchanged. */
  lemma {:induction false} PendsIffNeverDropped(w: World, actions: seq<Action>, id: FlowId, end: World)
    requires Safe(w) && id in w.store.pending && end == Run(w, actions)
    ensures Safe(end) && id in w.owner && id in end.owner && end.owner[id] == w.owner[id]
    ensures id in end.store.pending <==> NeverDropped(w, actions, id)
    ensures id in end.store.pending ==> end.store.pending[id] == w.store.pending[id]
    decreases |actions|
  {
    if actions != [] {
      var n := |actions| - 1;
      var before := Run(w, actions[..n]);
      PendsIffNeverDropped(w, actions[..n], id, before);
      StepIsSafe(before, actions[n]);
      OwnerStays(before, actions[n], id);
      StepPends(before, actions[n], id);
      Snoc(actions);
      NeverDroppedNext(w, actions[..n], actions[n], id);
    }
  }

  /**
   From the start on: over any run in which nothing drops the flow, its owner's next poll sends
   the device code that was granted, up to the expiry, and reports the flow as expired past it.
   If something has dropped it, no poll sends it again.
   */
  lemma {:induction false} FlowStaysPending(past: seq<Action>, id: FlowId, user: nat, g: Grant, clock: real, lifetime: real,
                                            rest: seq<Action>, now: real, w: World, end: World)
    requires id !in Run(INITIAL, past).owner
    requires w == Perform(Run(INITIAL, past), Start(id, user, g, clock, lifetime)) && end == Run(w, rest)
    ensures id in w.store.pending && IsGranted(w.store.pending[id], user, g, clock, lifetime)
    ensures var check, expiry := Checked(end.store, id, user, now).1, w.store.pending[id].expiresAt;
            && (NeverDropped(w, rest, id) ==> check == if now <= expiry then Send(g.deviceCode) else Expired)
            && (check.Send? ==> NeverDropped(w, rest, id))
  {
    RunIsSafe(past);
    StepIsSafe(Run(INITIAL, past), Start(id, user, g, clock, lifetime));
    PendsIffNeverDropped(w, rest, id, end);
    OwnerPolls(end, id, user, now);
  }

  /** No answer for the flow ends it, and no clock that could drop it is past its expiry. */
  predicate Patient(w: World, a: Action, id: FlowId, expiry: real) {
    && (a.EndPoll? && a.thread in w.polls && w.polls[a.thread].id == id ==> LeavesPending(a.reply))
    && (a.Purge? || a.BeginPoll? || a.BeginTake? ==> a.now <= expiry)
  }

  /** However often the user is not done yet, up to the expiry the owner's next poll asks with the same code again. */
  lemma {:induction false} NextPollSends(past: seq<Action>, id: FlowId, user: nat, g: Grant, clock: real, lifetime: real,
                                         rest: seq<Action>, now: real, w: World, expiry: real)
    requires id !in Run(INITIAL, past).owner
    requires w == Perform(Run(INITIAL, past), Start(id, user, g, clock, lifetime))
    requires expiry == clock + (match g.expiresIn case None => lifetime case Some(seconds) => seconds) && now <= expiry
    requires forall n :: 0 <= n < |rest| ==> Patient(Run(w, rest[..n]), rest[n], id, expiry)
    ensures Checked(Run(w, rest).store, id, user, now) == (Run(w, rest).store, Send(g.deviceCode))
  {
    FlowStaysPending(past, id, user, g, clock, lifetime, rest, now, w, Run(w, rest));
    RunIsSafe(past);
    StepIsSafe(Run(INITIAL, past), Start(id, user, g, clock, lifetime));
    PatientKeeps(w, id, rest, expiry);
  }

  lemma {:induction false} PatientKeeps(w: World, id: FlowId, rest: seq<Action>, expiry: real)
    requires Safe(w) && id in w.store.pending && w.store.pending[id].expiresAt == expiry
    requires forall n :: 0 <= n < |rest| ==> Patient(Run(w, rest[..n]), rest[n], id, expiry)
    ensures NeverDropped(w, rest, id)
    decreases |rest|
  {
    if rest != [] {
      var before, a := rest[..|rest| - 1], rest[|rest| - 1];
      assert forall n :: 0 <= n < |before| ==> before[..n] == rest[..n] && before[n] == rest[n];
      PatientKeeps(w, id, before, expiry);
      PendsIffNeverDropped(w, before, id, Run(w, before));
      PatientStep(Run(w, before), a, id, expiry);
      Snoc(rest);
      NeverDroppedNext(w, before, a, id);
    }
  }

  lemma PatientStep(w: World, a: Action, id: FlowId, expiry: real)
    requires Patient(w, a, id, expiry) && (id in w.store.pending ==> w.store.pending[id].expiresAt == expiry)
    ensures !Drops(w, a, id)
  {
  }

  // ---------------------------------------------------------------- tokens stay available

  /** A step that brings no 200 answer for the flow. */
  predicate NotAnswered(w: World, a: Action, id: FlowId) {
    a.EndPoll? && a.thread in w.polls && w.polls[a.thread].id == id ==> !Is200(a.reply)
  }

  /** Nor a take by its owner, nor a clock past `now`. */
  predicate Quiet(w: World, a: Action, id: FlowId, user: nat, now: real) {
    && NotAnswered(w, a, id)
    && (a.Purge? ==> a.now <= now)
    && (a.BeginTake? ==> a.now <= now && !(a.id == id && a.user == user))
  }

  ghost predicate QuietRun(w: World, actions: seq<Action>, id: FlowId, user: nat, now: real) {
    forall n :: 0 <= n < |actions| ==> Quiet(Run(w, actions[..n]), actions[n], id, user, now)
  }

  ghost predicate UnansweredRun(w: World, actions: seq<Action>, id: FlowId) {
    forall n :: 0 <= n < |actions| ==> NotAnswered(Run(w, actions[..n]), actions[n], id)
  }

  /** The takes of the flow that are between lookup and delete. */
  function TakersOf(w: World, id: FlowId): map<nat, Taking> {
    map th | th in w.takes && w.takes[th].id == id :: w.takes[th]
  }

  /** The flow's tokens are `c`, and no one is taking them. */
  ghost predicate Untouched(w: World, id: FlowId, c: Completed) {
    id in w.store.completed && w.store.completed[id] == c && TakersOf(w, id) == map[]
  }

  lemma QuietStep(w: World, a: Action, id: FlowId, c: Completed, now: real)
    requires Untouched(w, id, c) && Quiet(w, a, id, c.user, now) && now <= c.expiresAt
    ensures Untouched(Perform(w, a), id, c)
  {
    forall th | th in w.takes ensures w.takes[th].id != id { assert th !in TakersOf(w, id); }
    StepHolds(w, a, id);
    match a
    case Purge(_) =>
    case Start(_, _, _, _, _) =>
    case BeginPoll(_, _, _, _) =>
    case EndPoll(_, _, _) =>
    case BeginTake(_, _, _, _) =>
    case EndTake(_) =>
  }

  lemma {:induction false} QuietKeepsTokens(w: World, actions: seq<Action>, id: FlowId, c: Completed, now: real)
    requires Untouched(w, id, c) && QuietRun(w, actions, id, c.user, now) && now <= c.expiresAt
    ensures Untouched(Run(w, actions), id, c)
    decreases |actions|
  {
    if actions != [] {
      var before := actions[..|actions| - 1];
      assert forall n :: 0 <= n < |before| ==> before[..n] == actions[..n] && before[n] == actions[n];
      QuietKeepsTokens(w, before, id, c, now);
      QuietStep(Run(w, before), actions[|actions| - 1], id, c, now);
    }
  }

  /** Whatever the flow holds expires at `deadline`. */
  ghost predicate Expires(w: World, id: FlowId, deadline: real) {
    id in w.store.completed ==> w.store.completed[id].expiresAt == deadline
  }

  lemma {:induction false} ExpiryStays(w: World, actions: seq<Action>, id: FlowId, deadline: real)
    requires Expires(w, id, deadline) && UnansweredRun(w, actions, id)
    ensures Expires(Run(w, actions), id, deadline)
    decreases |actions|
  {
    if actions != [] {
      var before := actions[..|actions| - 1];
      assert forall n :: 0 <= n < |before| ==> before[..n] == actions[..n] && before[n] == actions[n];
      ExpiryStays(w, before, id, deadline);
      StepHolds(Run(w, before), actions[|actions| - 1], id);
    }
  }

  /** Nothing of a flow is being taken before its first 200 answer. */
  lemma {:induction false} TakesFollowAnswers(actions: seq<Action>, id: FlowId)
    requires Run(INITIAL, actions).replies[id] == 0
    ensures TakersOf(Run(INITIAL, actions), id) == map[]
    decreases |actions|
  {
    if actions != [] {
      var before := actions[..|actions| - 1];
      var w := Run(INITIAL, before);
      TakesFollowAnswers(before, id);
      RunIsSafe(before);
      assert w.deliveries[id] + Held(w.store, id) <= w.replies[id];
      NoNewTaker(w, actions[|actions| - 1], id);
    }
  }

  lemma NoNewTaker(w: World, a: Action, id: FlowId)
    requires id !in w.store.completed && TakersOf(w, id) == map[]
    ensures TakersOf(Perform(w, a), id) == map[]
  {
    forall th | th in w.takes ensures w.takes[th].id != id { assert th !in TakersOf(w, id); }
    match a
    case Purge(_) =>
    case Start(_, _, _, _, _) =>
    case BeginPoll(_, _, _, _) =>
    case EndPoll(_, _, _) =>
    case BeginTake(_, _, _, _) =>
    case EndTake(_) =>
  }

  /** The run `past` ends with `thread` polling the flow for `user`, which has had no 200 answer yet. */
  ghost predicate AboutToComplete(past: seq<Action>, thread: nat, id: FlowId, user: nat) {
    var w := Run(INITIAL, past);
    thread in w.polls && w.polls[thread] == Polling(id, user) && w.replies[id] == 0
  }

  /** The world in which the first 200 answer for a flow has just come in, at time `t`. */
  function AnsweredWorld(past: seq<Action>, thread: nat, tokens: Tokens, t: real): World {
    Perform(Run(INITIAL, past), EndPoll(thread, Granted(tokens), t))
  }

  lemma AnswerIsUntouched(past: seq<Action>, thread: nat, id: FlowId, user: nat, tokens: Tokens, t: real)
    requires AboutToComplete(past, thread, id, user)
    ensures Untouched(AnsweredWorld(past, thread, tokens, t), id, Completed(user, tokens, t + COMPLETED_TTL))
  {
    TakesFollowAnswers(past, id);
    assert TakersOf(AnsweredWorld(past, thread, tokens, t), id) == TakersOf(Run(INITIAL, past), id);
  }

  /**
   After the first 200 answer for a flow, at time `t`, and any run without a second one and
   without a take by the owner, the owner's lookup at `now`, no clock so far being past it, finds
   exactly the granted tokens up to `t` + 600, and none after.
   */
  lemma {:induction false} TokensStayAvailable(past: seq<Action>, thread: nat, id: FlowId, user: nat, tokens: Tokens, t: real,
                                               quiet: seq<Action>, now: real, w: World, end: World)
    requires AboutToComplete(past, thread, id, user)
    requires w == AnsweredWorld(past, thread, tokens, t) && end == Run(w, quiet) && QuietRun(w, quiet, id, user, now)
    ensures LookedUp(end.store, id, user, now).1 == if now <= t + 600.0 then Some(Completed(user, tokens, t + 600.0)) else None
  {
    var c := Completed(user, tokens, t + COMPLETED_TTL);
    AnswerIsUntouched(past, thread, id, user, tokens, t);
    if now <= t + 600.0 {
      QuietKeepsTokens(w, quiet, id, c, now);
    } else {
      NoneAfter(past, thread, id, user, tokens, t, quiet, user, now, w, end);
    }
  }

  /** Past `t` + 600 no one finds tokens of the flow, whatever clocks and takes came before, unless there was a second 200 answer. */
  lemma {:induction false} NoneAfter(past: seq<Action>, thread: nat, id: FlowId, user: nat, tokens: Tokens, t: real,
                                     rest: seq<Action>, taker: nat, now: real, w: World, end: World)
    requires AboutToComplete(past, thread, id, user)
    requires w == AnsweredWorld(past, thread, tokens, t) && end == Run(w, rest) && UnansweredRun(w, rest, id)
    ensures now > t + 600.0 ==> LookedUp(end.store, id, taker, now).1 == None
  {
    AnswerIsUntouched(past, thread, id, user, tokens, t);
    ExpiryStays(w, rest, id, t + COMPLETED_TTL);
  }

  /**
   From the answer to the delivery: after such a run the owner's first take, begun at `now` up to
   `t` + 600, delivers exactly the granted tokens if and only if they remain until its delete;
   with nothing in between they do. Begun later, it finds nothing.
   */
  lemma {:induction false} FirstTakeDelivers(past: seq<Action>, thread: nat, id: FlowId, user: nat, tokens: Tokens, t: real,
                                             quiet: seq<Action>, taker: nat, now: real, between: seq<Action>, w: World, found: World, end: World)
    requires AboutToComplete(past, thread, id, user)
    requires w == AnsweredWorld(past, thread, tokens, t) && QuietRun(w, quiet, id, user, now)
    requires taker !in Run(w, quiet).polls && taker !in Run(w, quiet).takes
    requires found == Perform(Run(w, quiet), BeginTake(taker, id, user, now))
    requires forall n :: 0 <= n < |between| ==> between[n] != EndTake(taker)
    requires end == Perform(Run(found, between), EndTake(taker))
    ensures now <= t + 600.0 && Remains(found, between, id) ==>
              (id, user, tokens) in end.delivered && end.deliveries[id] == Run(found, between).deliveries[id] + 1
    ensures now <= t + 600.0 && !Remains(found, between, id) ==> end.deliveries == Run(found, between).deliveries
    ensures between == [] ==> Remains(found, between, id)
    ensures now > t + 600.0 ==> taker !in found.takes
  {
    var ready := Run(w, quiet);
    TokensStayAvailable(past, thread, id, user, tokens, t, quiet, now, w, ready);
    if now <= t + 600.0 {
      assert found.takes[taker] == Taking(id, Completed(user, tokens, t + 600.0)) && id in found.store.completed;
      LookupDeliversIff(found, taker, between, end);
    }
    if between == [] { assert NoLossFrom(found, between, id, 0); }
  }

  /** A poll never purges: it reports a flow as complete even when its tokens can no longer be taken. */
  lemma PollOutlivesTokens(s: Store, id: FlowId, now: real)
    requires id in s.completed
    ensures Checked(s, id, s.completed[id].user, now).1 == Complete
    ensures LookedUp(s, id, s.completed[id].user, now).1.None? <==> now > s.completed[id].expiresAt
  {
  }
}
