/** The lazy start of the tool session: any number of caller threads share one client, and every
    session object has a manager thread of its own. The steps are the reads and writes that
    other threads can see. Closing the client is not a step. */
module McpSession {
  import opened Options

  /** Where a manager thread is in `_manage`. */
  datatype Stage = Opening | Stored | Serving | Failing | Dead

  /** A session object: its inner session, its ready flag, its start error, and the stage of its
      manager thread. */
  datatype Session = Session(inner: bool, ready: bool, error: bool, stage: Stage)

  /** Where a caller is in `call_tool_sync`. A session number names a session object. */
  datatype Caller =
    | FirstCheck                // about to read the client's session without the lock
    | WantLock                  // saw none
    | SecondCheck               // holds the lock, about to read again
    | Waiting(p: nat)           // holds the lock, waits for the ready flag of the new object
    | ErrorCheck(p: nat)        // holds the lock, saw the ready flag
    | Publish(p: nat)           // holds the lock, the constructor has returned
    | Unlock(failed: bool)      // about to release the lock
    | ReadBack                  // about to read the session to return
    | Using(p: nat)             // got the session, about to read its inner session
    | Replied(p: nat, initialized: bool)
    | Refused                   // reports the constructor's exception

  datatype State = State(
    client: Option<nat>,        // the client's session field
    lock: Option<nat>,          // the caller that holds the client's lock
    sessions: seq<Session>,     // every session object ever built
    callers: seq<Caller>,
    succeeded: seq<nat>,        // sessions whose constructor returned
    timedOut: set<nat>,         // sessions whose constructor gave up waiting
    errored: set<nat>)          // sessions whose constructor raised the start error

  ghost predicate Init(s: State) {
    && s.client == None && s.lock == None && s.sessions == [] && s.succeeded == [] && s.timedOut == {} && s.errored == {}
    && forall t :: 0 <= t < |s.callers| ==> s.callers[t] == FirstCheck
  }

  /** One step of a manager thread. */
  ghost predicate Manage(a: Session, b: Session) {
    match a.stage
    case Opening =>
      b == a.(inner := true, stage := Stored) || b == a.(error := true, stage := Failing)
    case Stored =>
      b == a.(ready := true, stage := Serving) || b == a.(error := true, stage := Failing)
    case Serving => b == a.(error := true, stage := Failing)
    case Failing => b == a.(ready := true, stage := Dead)
    case Dead => false
  }

  ghost predicate ManagerStep(s: State, s': State, p: nat) {
    && p < |s.sessions|
    && |s'.sessions| == |s.sessions|
    && Manage(s.sessions[p], s'.sessions[p])
    && s' == s.(sessions := s.sessions[p := s'.sessions[p]])
  }

  function Move(s: State, t: nat, c: Caller): State
    requires t < |s.callers|
  {
    s.(callers := s.callers[t := c])
  }

  /** One step of caller t. */
  ghost predicate CallerStep(s: State, s': State, t: nat) {
    && t < |s.callers|
    && match s.callers[t]
       case FirstCheck => s' == Move(s, t, if s.client == None then WantLock else ReadBack)
       case WantLock => s.lock == None && s' == Move(s, t, SecondCheck).(lock := Some(t))
       case SecondCheck =>
         if s.client == None then
           s' == Move(s, t, Waiting(|s.sessions|)).(
             sessions := s.sessions + [Session(false, false, false, Opening)])
         else s' == Move(s, t, Unlock(false))
       case Waiting(p) =>
         || (p < |s.sessions| && s.sessions[p].ready && s' == Move(s, t, ErrorCheck(p)))
         || s' == Move(s, t, Unlock(true)).(timedOut := s.timedOut + {p})
       case ErrorCheck(p) =>
         && p < |s.sessions|
         && if s.sessions[p].error then s' == Move(s, t, Unlock(true)).(errored := s.errored + {p})
            else s' == Move(s, t, Publish(p)).(succeeded := s.succeeded + [p])
       case Publish(p) => s' == Move(s, t, Unlock(false)).(client := Some(p))
       case Unlock(failed) => s' == Move(s, t, if failed then Refused else ReadBack).(lock := None)
       case ReadBack => s.client.Some? && s' == Move(s, t, Using(s.client.value))
       case Using(p) => p < |s.sessions| && s' == Move(s, t, Replied(p, s.sessions[p].inner))
       case Replied(_, _) => s' == Move(s, t, FirstCheck)
       case Refused => s' == Move(s, t, FirstCheck)
  }

  ghost predicate Step(s: State, s': State) {
    || (exists t: nat :: CallerStep(s, s', t))
    || (exists p: nat :: ManagerStep(s, s', p))
  }

  /** A run of the system, of any length and with any interleaving. */
  ghost predicate Run(run: seq<State>) {
    && run != [] && Init(run[0])
    && forall i :: 0 <= i < |run| - 1 ==> Step(run[i], run[i + 1])
  }

  predicate HoldsLock(c: Caller) {
    c.SecondCheck? || c.Waiting? || c.ErrorCheck? || c.Publish? || c.Unlock?
  }

  /** What the flags of a session object say about its manager. */
  ghost predicate SessionInv(x: Session) {
    match x.stage
    case Opening => !x.inner && !x.ready && !x.error
    case Stored => x.inner && !x.ready && !x.error
    case Serving => x.inner && x.ready && !x.error
    case Failing => x.error && (x.ready ==> x.inner)
    case Dead => x.error && x.ready
  }

  /** A session the constructor vouched for. */
  ghost predicate Sound(s: State, p: nat) {
    p < |s.sessions| && s.sessions[p].inner && s.sessions[p].ready
  }

  ghost predicate CallerInv(s: State, c: Caller) {
    match c
    case Waiting(p) => p < |s.sessions| && s.client == None
    case ErrorCheck(p) => p < |s.sessions| && s.sessions[p].ready && s.client == None
    case Publish(p) => Sound(s, p) && s.client == None
    case Unlock(failed) => failed <==> s.client == None
    case ReadBack => s.client.Some?
    case Using(p) => s.client == Some(p)
    case Replied(p, initialized) => s.client == Some(p) && initialized
    case _ => true
  }

  /** The caller inside the lock; outside, any caller that holds nothing. */
  function Holder(s: State): Caller {
    if s.lock.Some? && s.lock.value < |s.callers| then s.callers[s.lock.value] else FirstCheck
  }

  ghost predicate LockInv(s: State) {
    && (s.lock.Some? ==> s.lock.value < |s.callers|)
    && forall t :: 0 <= t < |s.callers| ==> (HoldsLock(s.callers[t]) <==> s.lock == Some(t))
  }

  /** The session whose constructor is at work or has just returned. */
  function Underway(c: Caller): set<nat> {
    match c
    case Waiting(p) => {p}
    case ErrorCheck(p) => {p}
    case Publish(p) => {p}
    case _ => {}
  }

  /** The constructors that returned: the published session, or the one about to be. */
  ghost predicate SucceededInv(s: State) {
    var h := Holder(s);
    s.succeeded == if s.client.Some? then [s.client.value] else if h.Publish? then [h.p] else []
  }

  /** Every session timed out, errored, was published or is underway, and only one of these. */
  ghost predicate FateInv(s: State) {
    var current := Underway(Holder(s)) + if s.client.Some? then {s.client.value} else {};
    && s.timedOut !! s.errored !! current
    && (forall p: nat :: p < |s.sessions| <==> p in s.timedOut || p in s.errored || p in current)
    && (forall p :: p in s.errored ==> p < |s.sessions| && IsDown(s.sessions[p]))
  }

  /** The manager has left the session, and its server process has ended. */
  predicate IsDown(x: Session) {
    x.stage == Failing || x.stage == Dead
  }

  ghost predicate Inv(s: State) {
    && (forall p :: 0 <= p < |s.sessions| ==> SessionInv(s.sessions[p]))
    && LockInv(s)
    && (forall t :: 0 <= t < |s.callers| ==> CallerInv(s, s.callers[t]))
    && (s.client.Some? ==> Sound(s, s.client.value))
    && SucceededInv(s) && FateInv(s)
  }

  lemma InitInv(s: State)
    requires Init(s)
    ensures Inv(s)
  {
  }

  lemma ManagerKeepsInv(s: State, s': State, p: nat)
    requires Inv(s) && ManagerStep(s, s', p)
    ensures Inv(s')
  {
    assert s'.callers == s.callers;
    forall t | 0 <= t < |s'.callers| ensures CallerInv(s', s'.callers[t]) {
      assert CallerInv(s, s.callers[t]);
    }
  }

  /** A step of a caller that leaves client and sessions alone. */
  lemma QuietStepKeepsInv(s: State, s': State, t: nat)
    requires Inv(s) && t < |s.callers| && |s'.callers| == |s.callers|
    requires s'.callers == s.callers[t := s'.callers[t]]
    requires s'.client == s.client && s'.sessions == s.sessions
    requires CallerInv(s', s'.callers[t])
    requires HoldsLock(s'.callers[t]) <==> s'.lock == Some(t)
    requires s'.lock == s.lock || (s.lock == None && s'.lock == Some(t)) || (s.lock == Some(t) && s'.lock == None)
    requires SucceededInv(s') && FateInv(s')
    ensures Inv(s')
  {
    forall u | 0 <= u < |s'.callers| ensures CallerInv(s', s'.callers[u]) {
      assert CallerInv(s, s.callers[u]);
    }
  }

  lemma BuildKeepsInv(s: State, s': State, t: nat)
    requires Inv(s) && CallerStep(s, s', t) && s.callers[t].SecondCheck? && s.client == None
    ensures Inv(s')
  {
    assert s'.sessions[|s.sessions|] == Session(false, false, false, Opening);
    forall u | 0 <= u < |s'.callers| ensures CallerInv(s', s'.callers[u]) {
      assert CallerInv(s, s.callers[u]);
    }
  }

  lemma PublishKeepsInv(s: State, s': State, t: nat)
    requires Inv(s) && CallerStep(s, s', t) && s.callers[t].Publish?
    ensures Inv(s')
  {
    assert CallerInv(s, s.callers[t]);
    forall u | 0 <= u < |s'.callers| ensures CallerInv(s', s'.callers[u]) {
      assert CallerInv(s, s.callers[u]);
      assert u != t ==> !HoldsLock(s.callers[u]);
    }
  }

  lemma CallerKeepsInv(s: State, s': State, t: nat)
    requires Inv(s) && CallerStep(s, s', t)
    ensures Inv(s')
  {
    assert CallerInv(s, s.callers[t]);
    if s.callers[t].SecondCheck? && s.client == None {
      BuildKeepsInv(s, s', t);
    } else if s.callers[t].Publish? {
      PublishKeepsInv(s, s', t);
    } else {
      if s.callers[t].ErrorCheck? {
        assert SessionInv(s.sessions[s.callers[t].p]);
      }
      QuietStepKeepsInv(s, s', t);
    }
  }

  lemma StepKeepsInv(s: State, s': State)
    requires Inv(s) && Step(s, s')
    ensures Inv(s')
  {
    if t: nat :| CallerStep(s, s', t) {
      CallerKeepsInv(s, s', t);
    } else {
      var p: nat :| ManagerStep(s, s', p);
      ManagerKeepsInv(s, s', p);
    }
  }

  lemma {:induction false} RunKeepsInv(run: seq<State>, i: nat)
    requires Run(run) && i < |run|
    ensures Inv(run[i])
    decreases i
  {
    if i == 0 {
      InitInv(run[0]);
    } else {
      RunKeepsInv(run, i - 1);
      StepKeepsInv(run[i - 1], run[i]);
    }
  }

  lemma StepKeepsClient(s: State, s': State)
    requires Inv(s) && Step(s, s') && s.client.Some?
    ensures s'.client == s.client
  {
    if t: nat :| CallerStep(s, s', t) {
      assert CallerInv(s, s.callers[t]);
    } else {
      var p: nat :| ManagerStep(s, s', p);
    }
  }

  lemma RunKeepsClient(run: seq<State>, i: nat)
    requires Run(run) && i + 1 < |run| && run[i].client.Some?
    ensures run[i + 1].client == run[i].client
  {
    RunKeepsInv(run, i);
    StepKeepsClient(run[i], run[i + 1]);
  }

  lemma RunIsSound(run: seq<State>, i: nat)
    requires Run(run) && i < |run| && run[i].client.Some?
    ensures Sound(run[i], run[i].client.value)
  {
    RunKeepsInv(run, i);
  }

  /** A published session stays published and sound: its inner session and ready flag are never
      taken back. */
  lemma {:induction false} ClientIsStable(run: seq<State>, i: nat, j: nat)
    requires Run(run) && i <= j < |run| && run[i].client.Some?
    ensures run[j].client == run[i].client && Sound(run[j], run[i].client.value)
    decreases j
  {
    if i < j {
      ClientIsStable(run, i, j - 1);
      RunKeepsClient(run, j - 1);
    }
    RunIsSound(run, j);
  }

  /** In every run at most one constructor returns, and every caller that got a session, at any
      two moments, got that one. */
  lemma OneSession(run: seq<State>, i: nat, j: nat, t: nat, u: nat)
    requires Run(run) && i <= j < |run| && t < |run[i].callers| && u < |run[j].callers|
    ensures |run[j].succeeded| <= 1
    ensures run[i].callers[t].Using? ==>
              run[j].succeeded == [run[i].callers[t].p] && Sound(run[j], run[i].callers[t].p)
    ensures run[i].callers[t].Using? && run[j].callers[u].Using? ==> run[i].callers[t].p == run[j].callers[u].p
  {
    RunKeepsInv(run, i);
    RunKeepsInv(run, j);
    assert CallerInv(run[i], run[i].callers[t]);
    assert CallerInv(run[j], run[j].callers[u]);
    if run[i].client.Some? {
      ClientIsStable(run, i, j);
    }
  }

  /** A constructor returns only for a session that was ready, had its inner session stored and
      showed no start error; no caller is ever told that its session is not initialized. */
  lemma OnlySoundSessions(run: seq<State>, i: nat, t: nat)
    requires Run(run) && i < |run| && t < |run[i].callers|
    ensures i + 1 < |run| && |run[i + 1].succeeded| > |run[i].succeeded| && CallerStep(run[i], run[i + 1], t) ==>
              run[i].callers[t].ErrorCheck? && var p := run[i].callers[t].p;
              Sound(run[i], p) && !run[i].sessions[p].error && run[i].sessions[p].stage == Serving
    ensures run[i].callers[t].Replied? ==> run[i].callers[t].initialized
  {
    RunKeepsInv(run, i);
    assert CallerInv(run[i], run[i].callers[t]);
    if run[i].callers[t].ErrorCheck? {
      assert SessionInv(run[i].sessions[run[i].callers[t].p]);
    }
  }

  // ---- How many servers ----

  function UpTo(n: nat): (r: set<nat>)
    ensures |r| == n && forall p: nat :: p in r <==> p < n
  {
    if n == 0 then {} else UpTo(n - 1) + {n - 1}
  }

  /** One session object is built for each start that failed, and at most one more. */
  lemma SessionsBuilt(run: seq<State>, i: nat)
    requires Run(run) && i < |run|
    ensures |run[i].timedOut + run[i].errored| <= |run[i].sessions| <= |run[i].timedOut + run[i].errored| + 1
  {
    var s := run[i];
    RunKeepsInv(run, i);
    var failed := s.timedOut + s.errored;
    var current := Underway(Holder(s)) + if s.client.Some? then {s.client.value} else {};
    assert UpTo(|s.sessions|) == failed + current;
    CurrentIsOne(s);
  }

  lemma CurrentIsOne(s: State)
    requires Inv(s)
    ensures |Underway(Holder(s)) + if s.client.Some? then {s.client.value} else {}| <= 1
  {
    if s.lock.Some? {
      assert CallerInv(s, s.callers[s.lock.value]);
    }
  }

  lemma StepKeepsErrored(s: State, s': State)
    requires Step(s, s')
    ensures s.errored <= s'.errored
  {
    if t: nat :| CallerStep(s, s', t) {
    } else {
      var p: nat :| ManagerStep(s, s', p);
    }
  }

  /** A server whose start raised an error is down from then on. */
  lemma {:induction false} ErroredStaysDown(run: seq<State>, i: nat, j: nat, p: nat)
    requires Run(run) && i <= j < |run| && p in run[i].errored
    ensures p in run[j].errored && p < |run[j].sessions| && IsDown(run[j].sessions[p])
    decreases j
  {
    RunKeepsInv(run, j);
    if i < j {
      ErroredStaysDown(run, i, j - 1, p);
      StepKeepsErrored(run[j - 1], run[j]);
    }
  }

  /** The sessions whose server process may be running. */
  function Up(s: State): set<nat> {
    set p: nat | p < |s.sessions| && !IsDown(s.sessions[p]) :: p
  }

  /** A server whose start raised an error is down for good, and at most one server is up beyond those
      whose start timed out: without a timeout there is never a second one. */
  lemma OneServerBeyondTimeouts(run: seq<State>, i: nat)
    requires Run(run) && i < |run|
    ensures Up(run[i]) !! run[i].errored
    ensures |Up(run[i]) - run[i].timedOut| <= 1
  {
    var s := run[i];
    RunKeepsInv(run, i);
    var current := Underway(Holder(s)) + if s.client.Some? then {s.client.value} else {};
    CurrentIsOne(s);
    assert Up(s) - s.timedOut <= current;
    SubsetSize(Up(s) - s.timedOut, current);
  }

  lemma SubsetSize(a: set<nat>, b: set<nat>)
    requires a <= b
    ensures |a| <= |b|
  {
    assert b == a + (b - a);
  }

  /** Two sessions serve at once. */
  ghost predicate TwoServe(s: State) {
    exists p: nat, q: nat ::
      p < q < |s.sessions| && s.sessions[p].stage == Serving && s.sessions[q].stage == Serving
  }

  /** No session was built and none timed out between the states, and what was down stayed down. */
  ghost predicate IsSealed(s: State, s': State) {
    && |s'.sessions| == |s.sessions| && s'.timedOut == s.timedOut
    && forall p: nat :: p < |s.sessions| && IsDown(s.sessions[p]) ==> IsDown(s'.sessions[p])
  }

  lemma SealedTransitive(a: State, b: State, c: State)
    requires IsSealed(a, b) && IsSealed(b, c)
    ensures IsSealed(a, c)
  {
  }

  lemma StepIsSealed(s: State, s': State)
    requires Inv(s) && Step(s, s') && s.client.Some?
    ensures IsSealed(s, s')
  {
    if t: nat :| CallerStep(s, s', t) {
      assert CallerInv(s, s.callers[t]);
    } else {
      var p: nat :| ManagerStep(s, s', p);
    }
  }

  lemma SealedReflexive(s: State)
    ensures IsSealed(s, s)
  {
  }

  lemma RunStepIsSealed(run: seq<State>, i: nat, j: nat)
    requires Run(run) && i <= j < |run| - 1 && run[i].client.Some?
    ensures IsSealed(run[j], run[j + 1])
  {
    ClientIsStable(run, i, j);
    RunKeepsInv(run, j);
    StepIsSealed(run[j], run[j + 1]);
  }

  /** Publication seals the fate of every session. */
  lemma {:induction false} PublicationSeals(run: seq<State>, i: nat, j: nat)
    requires Run(run) && i <= j < |run| && run[i].client.Some?
    ensures IsSealed(run[i], run[j])
    decreases j
  {
    if i < j {
      PublicationSeals(run, i, j - 1);
      RunStepIsSealed(run, i, j - 1);
      SealedTransitive(run[i], run[j - 1], run[j]);
    } else {
      SealedReflexive(run[i]);
    }
  }

  lemma NotBoth(a: set<nat>, p: nat, q: nat)
    requires |a| <= 1 && p != q
    ensures p !in a || q !in a
  {
    if p in a {
      assert a == {p} + (a - {p});
    }
  }

  /** A server whose start timed out is up after all. */
  ghost predicate LateServer(s: State) {
    exists p: nat :: p in s.timedOut && p in Up(s)
  }

  lemma SecondServerIsLate(run: seq<State>, i: nat)
    requires Run(run) && i < |run| && TwoServe(run[i])
    ensures LateServer(run[i])
  {
    var s := run[i];
    OneServerBeyondTimeouts(run, i);
    var p: nat, q: nat :|
      p < q < |s.sessions| && s.sessions[p].stage == Serving && s.sessions[q].stage == Serving;
    NotBoth(Up(s) - s.timedOut, p, q);
    assert p in Up(s) && q in Up(s);
  }

  lemma RunSnoc(run: seq<State>, s: State)
    requires Run(run) && Step(run[|run| - 1], s)
    ensures Run(run + [s])
  {
  }

  function Advanced(s: State, p: nat, x: Session): State
    requires p < |s.sessions|
  {
    s.(sessions := s.sessions[p := x])
  }

  lemma ManagerAdvances(run: seq<State>, p: nat, x: Session)
    requires Run(run)
    requires var s := run[|run| - 1]; p < |s.sessions| && Manage(s.sessions[p], x)
    ensures Run(run + [Advanced(run[|run| - 1], p, x)])
  {
    var s := run[|run| - 1];
    assert ManagerStep(s, Advanced(s, p, x), p);
    RunSnoc(run, Advanced(s, p, x));
  }

  /** A session that is up can come to serve, with every other session left as it is. */
  lemma ComesToServe(run: seq<State>, p: nat)
    requires Run(run) && p < |run[|run| - 1].sessions| && !IsDown(run[|run| - 1].sessions[p])
    ensures
      exists longer: seq<State> :: Run(longer) && run <= longer
                       && IsSamePlus(run[|run| - 1], longer[|longer| - 1], p)
  {
    var s := run[|run| - 1];
    var x := s.sessions[p];
    var stored := x.(inner := true, stage := Stored);
    if x.stage == Opening {
      ManagerAdvances(run, p, stored);
      var once := run + [Advanced(s, p, stored)];
      ManagerAdvances(once, p, stored.(ready := true, stage := Serving));
      var twice := once + [Advanced(Advanced(s, p, stored), p, stored.(ready := true, stage := Serving))];
      assert run <= twice && IsSamePlus(s, twice[|twice| - 1], p);
    } else if x.stage == Stored {
      ManagerAdvances(run, p, x.(ready := true, stage := Serving));
      var once := run + [Advanced(s, p, x.(ready := true, stage := Serving))];
      assert run <= once && IsSamePlus(s, once[|once| - 1], p);
    } else {
      assert run <= run && IsSamePlus(s, run[|run| - 1], p);
    }
  }

  /** Only session p differs, and it serves. */
  ghost predicate IsSamePlus(s: State, s': State, p: nat) {
    && p < |s.sessions| == |s'.sessions| && s'.sessions[p].stage == Serving
    && forall k :: 0 <= k < |s.sessions| && k != p ==> s'.sessions[k] == s.sessions[k]
  }

  ghost predicate CanHaveTwo(run: seq<State>) {
    exists longer: seq<State> :: Run(longer) && run <= longer && TwoServe(longer[|longer| - 1])
  }

  lemma LateServerServes(run: seq<State>, q: nat)
    requires Run(run) && LateServer(run[|run| - 1])
    requires var s := run[|run| - 1]; s.client == Some(q) && q < |s.sessions| && s.sessions[q].stage == Serving
    ensures CanHaveTwo(run)
  {
    var s := run[|run| - 1];
    var p: nat :| p in s.timedOut && p in Up(s);
    RunKeepsInv(run, |run| - 1);
    assert p != q;
    ComesToServe(run, p);
    var longer: seq<State> :| Run(longer) && run <= longer && IsSamePlus(s, longer[|longer| - 1], p);
    var last := longer[|longer| - 1];
    assert last.sessions[q] == s.sessions[q];
    var lo, hi := if p < q then p else q, if p < q then q else p;
    assert lo < hi < |last.sessions| && last.sessions[lo].stage == Serving && last.sessions[hi].stage == Serving;
  }

  lemma SecondServerWasLate(run: seq<State>)
    requires Run(run) && run[|run| - 1].client.Some? && CanHaveTwo(run)
    ensures LateServer(run[|run| - 1])
  {
    var longer: seq<State> :| Run(longer) && run <= longer && TwoServe(longer[|longer| - 1]);
    var i, n := |run| - 1, |longer| - 1;
    assert longer[i] == run[i];
    SecondServerIsLate(longer, n);
    PublicationSeals(longer, i, n);
    var p: nat :| p in longer[n].timedOut && p in Up(longer[n]);
    assert p in run[i].timedOut && p in Up(run[i]);
  }

  /** Once a serving session is published, the promise of a single server can still be broken exactly
      when a server whose start timed out is not down. */
  lemma SecondServerExactlyWhen(run: seq<State>)
    requires Run(run)
    requires
      var s := run[|run| - 1];
      s.client.Some? && s.client.value < |s.sessions| && s.sessions[s.client.value].stage == Serving
    ensures CanHaveTwo(run) <==> LateServer(run[|run| - 1])
  {
    if LateServer(run[|run| - 1]) {
      LateServerServes(run, run[|run| - 1].client.value);
    }
    if CanHaveTwo(run) {
      SecondServerWasLate(run);
    }
  }

  /** One caller whose first start times out and who calls again: the first server comes up late
      and both serve. */
  function LateStart(): seq<State> {
    var none := [];
    var s := State(None, None, none, [FirstCheck], [], {}, {});
    var opening := Session(false, false, false, Opening);
    var stored := Session(true, false, false, Stored);
    var serving := Session(true, true, false, Serving);
    var again := s.(sessions := [opening], timedOut := {0});
    var late := again.(lock := Some(0), callers := [Waiting(1)], sessions := [opening, opening]);
    [ s,
      s.(callers := [WantLock]),
      s.(callers := [SecondCheck], lock := Some(0)),
      s.(callers := [Waiting(0)], lock := Some(0), sessions := [opening]),
      again.(callers := [Unlock(true)], lock := Some(0)),
      again.(callers := [Refused]),
      again.(callers := [FirstCheck]),
      again.(callers := [WantLock]),
      again.(callers := [SecondCheck], lock := Some(0)),
      late,
      late.(sessions := [stored, opening]),
      late.(sessions := [serving, opening]),
      late.(sessions := [serving, stored]),
      late.(sessions := [serving, serving]) ]
  }

  /** The promise of a single server process does not survive a start timeout. */
  lemma TwoServersAfterTimeout()
    ensures Run(LateStart())
    ensures var s := LateStart()[13]; |s.sessions| == 2 && forall p :: 0 <= p < 2 ==> s.sessions[p].stage == Serving
  {
    var run := LateStart();
    forall i | 0 <= i < |run| - 1 ensures Step(run[i], run[i + 1]) {
      if i < 9 {
        LateStartCaller(i);
      } else {
        LateStartManager(i);
      }
    }
  }

  lemma LateStartCaller(i: nat)
    requires i < 9
    ensures CallerStep(LateStart()[i], LateStart()[i + 1], 0)
  {
  }

  lemma LateStartManager(i: nat)
    requires 9 <= i < 13
    ensures ManagerStep(LateStart()[i], LateStart()[i + 1], if i < 11 then 0 else 1)
  {
  }

  ghost predicate Enabled(s: State, t: nat) {
    exists s' :: CallerStep(s, s', t)
  }

  /** No reachable state is stuck: a caller that cannot move waits for the lock, and the caller that
      holds the lock can always move. */
  lemma NeverStuck(run: seq<State>, i: nat, t: nat)
    requires Run(run) && i < |run| && t < |run[i].callers|
    ensures Enabled(run[i], t) ||
            (run[i].callers[t] == WantLock && run[i].lock.Some? && Enabled(run[i], run[i].lock.value))
  {
    var s := run[i];
    RunKeepsInv(run, i);
    if s.callers[t] == WantLock && s.lock.Some? {
      assert HoldsLock(s.callers[s.lock.value]);
      HolderMoves(s, s.lock.value);
    } else if s.callers[t].Waiting? {
      HolderMoves(s, t);
    } else {
      OthersMove(s, t);
    }
  }

  lemma HolderMoves(s: State, t: nat)
    requires Inv(s) && t < |s.callers| && HoldsLock(s.callers[t])
    ensures Enabled(s, t)
  {
    assert CallerInv(s, s.callers[t]);
    if s.callers[t].Waiting? {
      assert CallerStep(s, Move(s, t, Unlock(true)).(timedOut := s.timedOut + {s.callers[t].p}), t);
    } else {
      OthersMove(s, t);
    }
  }

  lemma OthersMove(s: State, t: nat)
    requires Inv(s) && t < |s.callers| && !s.callers[t].Waiting?
    requires s.callers[t] == WantLock ==> s.lock == None
    ensures Enabled(s, t)
  {
    assert CallerInv(s, s.callers[t]);
    var s' := match s.callers[t]
      case Waiting(_) => s
      case Replied(_, _) => Move(s, t, FirstCheck)
      case Refused => Move(s, t, FirstCheck)
      case FirstCheck => Move(s, t, if s.client == None then WantLock else ReadBack)
      case WantLock => Move(s, t, SecondCheck).(lock := Some(t))
      case SecondCheck =>
        if s.client == None then
          Move(s, t, Waiting(|s.sessions|)).(sessions := s.sessions + [Session(false, false, false, Opening)])
        else Move(s, t, Unlock(false))
      case ErrorCheck(p) =>
        if s.sessions[p].error then Move(s, t, Unlock(true)).(errored := s.errored + {p})
        else Move(s, t, Publish(p)).(succeeded := s.succeeded + [p])
      case Publish(p) => Move(s, t, Unlock(false)).(client := Some(p))
      case Unlock(failed) => Move(s, t, if failed then Refused else ReadBack).(lock := None)
      case ReadBack => Move(s, t, Using(s.client.value))
      case Using(p) => Move(s, t, Replied(p, s.sessions[p].inner));
    assert CallerStep(s, s', t);
  }

  // ---- What a caller gets ----

  /** The run can go on to where caller t is done, holds no lock and sees this client. */
  ghost predicate CanCome(run: seq<State>, t: nat, c: Caller, client: Option<nat>) {
    exists longer: seq<State> ::
      && Run(longer) && run <= longer
      && var s := longer[|longer| - 1]; t < |s.callers| && s.callers[t] == c && s.client == client && s.lock != Some(t)
  }

  lemma CallerAdvances(run: seq<State>, t: nat, s': State)
    requires Run(run) && CallerStep(run[|run| - 1], s', t)
    ensures Run(run + [s']) && run <= run + [s'] && (run + [s'])[|run + [s']| - 1] == s'
  {
    RunSnoc(run, s');
  }

  lemma ComesFrom(run: seq<State>, longer: seq<State>, t: nat, c: Caller, client: Option<nat>)
    requires run <= longer && CanCome(longer, t, c, client)
    ensures CanCome(run, t, c, client)
  {
  }

  /** Once a session is published, a caller gets its reply from that session in three steps of its own, without the
      lock. */
  lemma PublishedAnswers(run: seq<State>, t: nat)
    requires Run(run)
    requires
      var s := run[|run| - 1];
      t < |s.callers| && s.client.Some? && (s.callers[t] == FirstCheck || s.callers[t] == ReadBack)
    ensures
      var q := run[|run| - 1].client;
      CanCome(run, t, Replied(q.value, true), q)
  {
    var s := run[|run| - 1];
    var q := s.client.value;
    RunKeepsInv(run, |run| - 1);
    if s.callers[t] == FirstCheck {
      var next := run + [Move(s, t, ReadBack)];
      CallerAdvances(run, t, Move(s, t, ReadBack));
      ReadBackAnswers(next, t);
      ComesFrom(run, next, t, Replied(q, true), Some(q));
    } else {
      ReadBackAnswers(run, t);
    }
  }

  lemma ReadBackAnswers(run: seq<State>, t: nat)
    requires Run(run)
    requires var s := run[|run| - 1]; t < |s.callers| && s.client.Some? && s.callers[t] == ReadBack
    ensures
      var q := run[|run| - 1].client;
      CanCome(run, t, Replied(q.value, true), q)
  {
    var s := run[|run| - 1];
    var q := s.client.value;
    RunKeepsInv(run, |run| - 1);
    var a := Move(s, t, Using(q));
    CallerAdvances(run, t, a);
    var b := Move(a, t, Replied(q, a.sessions[q].inner));
    CallerAdvances(run + [a], t, b);
    assert b.callers[t] == Replied(q, true) && b.lock != Some(t);
    assert run <= run + [a] + [b];
  }

  /** A caller whose new session became ready without an error publishes it and gets its reply from it. */
  lemma ReadyIsPublished(run: seq<State>, t: nat, p: nat)
    requires Run(run)
    requires
      var s := run[|run| - 1];
      && t < |s.callers| && s.callers[t] == Waiting(p) && p < |s.sessions| && s.sessions[p].ready && !s.sessions[p].error
    ensures CanCome(run, t, Replied(p, true), Some(p))
  {
    var s := run[|run| - 1];
    var a := Move(s, t, ErrorCheck(p));
    CallerAdvances(run, t, a);
    var b := Move(a, t, Publish(p)).(succeeded := a.succeeded + [p]);
    CallerAdvances(run + [a], t, b);
    var c := Move(b, t, Unlock(false)).(client := Some(p));
    CallerAdvances(run + [a] + [b], t, c);
    var d := Move(c, t, ReadBack).(lock := None);
    var last := run + [a] + [b] + [c];
    CallerAdvances(last, t, d);
    ReadBackAnswers(last + [d], t);
    assert run <= last + [d];
    ComesFrom(run, last + [d], t, Replied(p, true), Some(p));
  }

  /** A caller whose new session failed to start is refused, the lock is free again and nothing is published. */
  lemma FailureIsReported(run: seq<State>, t: nat, p: nat)
    requires Run(run)
    requires
      var s := run[|run| - 1];
      && t < |s.callers| && s.callers[t] == Waiting(p) && p < |s.sessions| && s.sessions[p].ready && s.sessions[p].error
    ensures CanCome(run, t, Refused, None)
  {
    var s := run[|run| - 1];
    RunKeepsInv(run, |run| - 1);
    assert CallerInv(s, s.callers[t]);
    var a := Move(s, t, ErrorCheck(p));
    CallerAdvances(run, t, a);
    var b := Move(a, t, Unlock(true)).(errored := a.errored + {p});
    CallerAdvances(run + [a], t, b);
    var c := Move(b, t, Refused).(lock := None);
    CallerAdvances(run + [a] + [b], t, c);
    assert run <= run + [a] + [b] + [c];
  }

  /** A manager that is not dead can come to fail and set the ready flag, which no failed one leaves unset for good. */
  lemma ComesToDie(run: seq<State>, p: nat)
    requires Run(run) && p < |run[|run| - 1].sessions| && run[|run| - 1].sessions[p].stage != Dead
    ensures
      exists longer: seq<State> ::
        && Run(longer) && run <= longer
        && var s, s' := run[|run| - 1], longer[|longer| - 1];
           s' == Advanced(s, p, s.sessions[p].(ready := true, error := true, stage := Dead))
  {
    var s := run[|run| - 1];
    var x := s.sessions[p];
    var failing := x.(error := true, stage := Failing);
    RunKeepsInv(run, |run| - 1);
    if x.stage == Failing {
      assert SessionInv(x) && x == failing;
      ManagerAdvances(run, p, x.(ready := true, stage := Dead));
      var once := run + [Advanced(s, p, x.(ready := true, stage := Dead))];
      assert run <= once && once[|once| - 1] == Advanced(s, p, x.(ready := true, error := true, stage := Dead));
    } else {
      ManagerAdvances(run, p, failing);
      var once := run + [Advanced(s, p, failing)];
      ManagerAdvances(once, p, failing.(ready := true, stage := Dead));
      var twice := once + [Advanced(Advanced(s, p, failing), p, failing.(ready := true, stage := Dead))];
      assert run <= twice;
      assert twice[|twice| - 1] == Advanced(s, p, x.(ready := true, error := true, stage := Dead));
    }
  }

  /** So a caller that waits for a session whose manager fails need not wait for its time to run out: it can be told of
      the failure. */
  lemma FailingStartIsReported(run: seq<State>, t: nat, p: nat)
    requires Run(run)
    requires
      var s := run[|run| - 1];
      && t < |s.callers| && s.callers[t] == Waiting(p) && p < |s.sessions| && s.sessions[p].stage != Dead
    ensures CanCome(run, t, Refused, None)
  {
    ComesToDie(run, p);
    var longer: seq<State> :|
      && Run(longer) && run <= longer
      && var s, s' := run[|run| - 1], longer[|longer| - 1];
         s' == Advanced(s, p, s.sessions[p].(ready := true, error := true, stage := Dead));
    FailureIsReported(longer, t, p);
    ComesFrom(run, longer, t, Refused, None);
  }
}
