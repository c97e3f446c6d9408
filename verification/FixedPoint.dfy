/**
 * What one pass with every call answered does to the stores, and when doing it again changes nothing.
 */
module FixedPoint {
  import opened Prelude
  import opened Platform
  import opened Api
  import opened Cluster
  import opened Policy
  import opened SurrealQL
  import opened Queries
  import opened QueryMeaning
  import opened Server
  import opened TargetSecret
  import opened Protocol
  import opened Convergence
  import Identifiers
  import Providers
  import Rotation
  import Username

  // ----- the outcome of a pass as one function -----

  /** What the pass plans at its target Secret. */
  function LivePlan(w: World, key: NamespacedName, c: Credential, now: int, drawn: string): Plan {
    var existing := Lookup(w.secrets, TargetKey(key, c));
    var seen := SeenBy(c, existing, now);
    var d := Rotation.DecideOn(ScheduleOf(c.status), seen);
    Plan(existing, seen, d, if d.action.Reuse? then ExistingPassword(existing).value else drawn)
  }

  /** The login its texts are about, defined as planned. */
  function WithUser(lib: Libraries, w: World, c: Credential, r: Resolved, p: Plan): World {
    w.(users := w.users[LocatedFor(c, r) := Login(ReadBack(lib, p.password), Distinct(c.spec.roles))])
  }

  function WithSecret(lib: Libraries, w: World, key: NamespacedName, c: Credential, r: Resolved, p: Plan): World {
    var written := SecretWrite(lib, w, key, c, r, p);
    if written.Some? then written.value else w
  }

  function WithStatus(w: World, key: NamespacedName, c: Credential): World {
    var written := TryUpdateStatus(w, key, c);
    if written.Some? then written.value else w
  }

  function UserIsDefined(c: Credential): Credential {
    SetCondition(c, USER_DEFINED, True, "DefineUserSucceeded")
  }

  /** The stores after a pass over a resolved credential in which nothing fails. */
  function Outcome(lib: Libraries, w: World, key: NamespacedName, r: Resolved, now: int, drawn: string): World
    requires key in w.credentials
  {
    var c := Accepted(w.credentials[key], r);
    var p := LivePlan(w, key, c, now, drawn);
    var d := UserIsDefined(c);
    WithStatus(WithSecret(lib, WithUser(lib, w, c, r, p), key, d, r, p), key, Completed(d, p.decision))
  }

  /** A live credential that resolves, may manage its Secret, and whose definition SurrealDB takes. */
  predicate CanComplete(lib: Libraries, w: World, key: NamespacedName, policy: PolicySpec, provider: ProviderSpec) {
    && key in w.credentials
    && var c := w.credentials[key];
       && !c.deleting && FINALIZER in c.finalizers
       && Resolve(lib, w, key, c) == Some((policy, provider))
       && CanManage(Lookup(w.secrets, TargetKey(key, c)), key.name, c.uid)
       && Nameable(UserTarget(c.spec.level, policy.surrealNamespace, c.spec.database)) && Supported(c.spec.roles)
  }

  lemma DefinitionAccepted(lib: Libraries, w: World, key: NamespacedName, policy: PolicySpec, provider: ProviderSpec, password: string)
    requires ProperDigest(lib) && CanComplete(lib, w, key, policy, provider)
    ensures var c := w.credentials[key];
            var r := ResolvedOf(lib, key, c, policy, provider);
            && DefineUserQuery(lib, SurrealTarget(c, r), r.username, password, c.spec.roles).Ok?
            && Identifiers.EscapeIdent(r.username) == Ok(r.username)
  {
    var c := w.credentials[key];
    Username.UsernameIsItsOwnIdentifier(lib, key.namespace, key.name, Evaluate(policy, RequestOf(c)).target);
    AllowedIffGranted(policy, RequestOf(c));
  }

  // ----- the machine computes the outcome -----

  /** Such a pass: where it starts, what it resolves, the clock it reads and the password it draws. */
  datatype Live = Live(w: World, key: NamespacedName, policy: PolicySpec, provider: ProviderSpec, r: Resolved, now: int, drawn: string)

  predicate CanLive(lib: Libraries, l: Live) {
    CanComplete(lib, l.w, l.key, l.policy, l.provider)
  }

  function Read(l: Live): Credential
    requires l.key in l.w.credentials
  {
    l.w.credentials[l.key]
  }

  function InMemory(l: Live): Credential
    requires l.key in l.w.credentials
  {
    Accepted(Read(l), l.r)
  }

  function PlanOf(l: Live): Plan
    requires l.key in l.w.credentials
  {
    LivePlan(l.w, l.key, InMemory(l), l.now, l.drawn)
  }

  function AfterUser(lib: Libraries, l: Live): World
    requires l.key in l.w.credentials
  {
    WithUser(lib, l.w, InMemory(l), l.r, PlanOf(l))
  }

  function AfterSecret(lib: Libraries, l: Live): World
    requires l.key in l.w.credentials
  {
    WithSecret(lib, AfterUser(lib, l), l.key, UserIsDefined(InMemory(l)), l.r, PlanOf(l))
  }

  /** Where the pass stands after its first `n` events. */
  predicate Reading(l: Live, n: nat, t: State)
    requires l.key in l.w.credentials
  {
    && t.world == l.w
    && t.pass == if n == 1 then GetCredential(l.key)
                 else if n == 2 then GetPolicy(l.key, Read(l))
                 else if n == 3 then GetProvider(l.key, Read(l), l.policy)
                 else if n == 4 then GetRoot(l.key, Read(l), l.policy, l.provider)
                 else GetTls(l.key, Read(l), l.policy, l.provider)
  }

  predicate Planning(l: Live, n: nat, t: State)
    requires l.key in l.w.credentials
  {
    && t.world == l.w
    && t.pass == if n == 6 then GetTarget(l.key, InMemory(l), l.r)
                 else if n == 7 then Connect(l.key, InMemory(l), l.r, PlanOf(l))
                 else Define(l.key, InMemory(l), l.r, PlanOf(l))
  }

  predicate Writing(lib: Libraries, l: Live, n: nat, t: State)
    requires l.key in l.w.credentials
  {
    if n == 9 then t.world == AfterUser(lib, l) && t.pass == WriteSecret(l.key, UserIsDefined(InMemory(l)), l.r, PlanOf(l))
    else if n == 10 then
      && t.world == AfterSecret(lib, l)
      && t.pass == PersistReady(l.key, Completed(UserIsDefined(InMemory(l)), PlanOf(l).decision), l.r, PlanOf(l))
    else t.world == Outcome(lib, l.w, l.key, l.r, l.now, l.drawn) && t.pass == Idle
  }

  predicate LiveAt(lib: Libraries, l: Live, n: nat, t: State)
    requires l.key in l.w.credentials
  {
    if n <= 5 then Reading(l, n, t) else if n <= 8 then Planning(l, n, t) else Writing(lib, l, n, t)
  }

  /** Reading what is there in order finds it. */
  lemma ReadsGo(lib: Libraries, l: Live)
    requires CanLive(lib, l)
    ensures AfterGetCredential(l.w, l.key, NoFault) == GetPolicy(l.key, Read(l))
    ensures AfterGetPolicy(l.w, l.key, Read(l), NoFault) == GetProvider(l.key, Read(l), l.policy)
    ensures AfterGetProvider(l.w, l.key, Read(l), l.policy, NoFault) == GetRoot(l.key, Read(l), l.policy, l.provider)
    ensures AfterGetRoot(l.w, l.key, Read(l), l.policy, l.provider, NoFault) == GetTls(l.key, Read(l), l.policy, l.provider)
  {
  }

  /** A read that is answered moves the pass on, and nothing else that matters here. */
  lemma ReadState(lib: Libraries, t: State, e: Event)
    requires (t.pass.GetCredential? || t.pass.GetPolicy? || t.pass.GetProvider? || t.pass.GetRoot?) && Answered(e)
    ensures var u := Next(lib, t, e);
            && u.world == t.world
            && u.pass == match t.pass
                         case GetCredential(key) => AfterGetCredential(t.world, key, NoFault)
                         case GetPolicy(key, c) => AfterGetPolicy(t.world, key, c, NoFault)
                         case GetProvider(key, c, p) => AfterGetProvider(t.world, key, c, p, NoFault)
                         case GetRoot(key, c, p, v) => AfterGetRoot(t.world, key, c, p, v, NoFault)
                         case _ => Idle
  {
    assert e.fault == NoFault;
  }

  lemma ReadStep(lib: Libraries, l: Live, n: nat, t: State, e: Event)
    requires CanLive(lib, l) && Answered(e) && 1 <= n <= 4 && Reading(l, n, t)
    ensures Reading(l, n + 1, Next(lib, t, e))
  {
    ReadsGo(lib, l);
    ReadState(lib, t, e);
  }

  lemma TlsGoes(lib: Libraries, l: Live)
    requires CanLive(lib, l) && l.r == ResolvedOf(lib, l.key, Read(l), l.policy, l.provider)
    ensures AfterGetTls(lib, l.w, l.key, Read(l), l.policy, l.provider, NoFault) == GetTarget(l.key, InMemory(l), l.r)
  {
  }

  lemma TlsStep(lib: Libraries, l: Live, t: State, e: Event)
    requires l.key in l.w.credentials && Answered(e) && Reading(l, 5, t)
    requires AfterGetTls(lib, l.w, l.key, Read(l), l.policy, l.provider, NoFault) == GetTarget(l.key, InMemory(l), l.r)
    ensures Planning(l, 6, Next(lib, t, e))
  {
    assert e.fault == NoFault;
  }

  lemma TargetGoes(lib: Libraries, l: Live)
    requires CanLive(lib, l)
    ensures AfterGetTarget(l.w, l.key, InMemory(l), l.r, NoFault, l.now, Some(l.drawn)) == Connect(l.key, InMemory(l), l.r, PlanOf(l))
  {
  }

  lemma TargetState(lib: Libraries, t: State, e: Event)
    requires t.pass.GetTarget? && Answered(e)
    ensures Next(lib, t, e) ==
            t.(pass := AfterGetTarget(t.world, t.pass.key, t.pass.cred, t.pass.resolved, NoFault, e.now, e.drawn))
  {
    assert e.fault == NoFault;
  }

  lemma TargetStep(lib: Libraries, l: Live, t: State, e: Event)
    requires CanLive(lib, l) && Answered(e) && Planning(l, 6, t) && e.now == l.now && e.drawn == Some(l.drawn)
    ensures Planning(l, 7, Next(lib, t, e))
  {
    TargetGoes(lib, l);
    TargetState(lib, t, e);
  }

  lemma ConnectedState(lib: Libraries, t: State, e: Event)
    requires t.pass.Connect? && Answered(e)
    ensures Next(lib, t, e) == t.(pass := Define(t.pass.key, t.pass.cred, t.pass.resolved, t.pass.plan))
  {
    assert e.fault == NoFault;
  }

  lemma ConnectStep(lib: Libraries, l: Live, t: State, e: Event)
    requires CanLive(lib, l) && Answered(e) && Planning(l, 7, t)
    ensures Planning(l, 8, Next(lib, t, e))
  {
    ConnectedState(lib, t, e);
  }

  lemma DefineGoes(lib: Libraries, w: World, c: Credential, r: Resolved, p: Plan)
    requires DefineUserQuery(lib, SurrealTarget(c, r), r.username, p.password, c.spec.roles).Ok?
    requires Nameable(SurrealTarget(c, r)) && Identifiers.EscapeIdent(r.username) == Ok(r.username)
    ensures Answer(w, AskToDefine(lib, w, UserOf(c, r), p.password, c.spec.roles), NoFault) == (WithUser(lib, w, c, r, p), true)
  {
    DefinitionEffect(lib, r.provider.endpoint, w.users, SurrealTarget(c, r), r.username, p.password, c.spec.roles);
  }

  lemma DefineStep(lib: Libraries, l: Live, t: State, e: Event)
    requires CanLive(lib, l) && Answered(e) && Planning(l, 8, t)
    requires DefineUserQuery(lib, SurrealTarget(InMemory(l), l.r), l.r.username, PlanOf(l).password, Read(l).spec.roles).Ok?
    requires Identifiers.EscapeIdent(l.r.username) == Ok(l.r.username) && Nameable(SurrealTarget(InMemory(l), l.r))
    ensures Writing(lib, l, 9, Next(lib, t, e))
  {
    DefineGoes(lib, t.world, t.pass.cred, t.pass.resolved, t.pass.plan);
    assert e.fault == NoFault;
  }

  lemma WrittenState(lib: Libraries, t: State, e: Event, v: World)
    requires t.pass.WriteSecret? && Answered(e)
    requires SecretWrite(lib, t.world, t.pass.key, t.pass.cred, t.pass.resolved, t.pass.plan) == Some(v)
    ensures Next(lib, t, e) ==
            t.(world := v, pass := AfterWriteSecret(t.pass.key, t.pass.cred, t.pass.resolved, t.pass.plan, true))
  {
    assert e.fault == NoFault;
  }

  lemma SecretStep(lib: Libraries, l: Live, t: State, e: Event)
    requires CanLive(lib, l) && Answered(e) && Writing(lib, l, 9, t)
    ensures Writing(lib, l, 10, Next(lib, t, e))
  {
    SecretIsWritten(lib, l);
    WrittenState(lib, t, e, AfterSecret(lib, l));
  }

  /** The Secret read is still there in the version read, or still absent. */
  lemma SecretIsWritten(lib: Libraries, l: Live)
    requires l.key in l.w.credentials
    ensures SecretWrite(lib, AfterUser(lib, l), l.key, UserIsDefined(InMemory(l)), l.r, PlanOf(l)) == Some(AfterSecret(lib, l))
    ensures AfterSecret(lib, l).credentials == l.w.credentials && AfterSecret(lib, l).users == AfterUser(lib, l).users
    ensures AfterSecret(lib, l).policies == l.w.policies && AfterSecret(lib, l).providers == l.w.providers
  {
  }

  /** The credential is still there in the version read, so the final write takes effect. */
  lemma PersistGoes(lib: Libraries, l: Live)
    requires l.key in l.w.credentials
    ensures var done := Completed(UserIsDefined(InMemory(l)), PlanOf(l).decision);
            && Attempt(AfterSecret(lib, l), TryUpdateStatus(AfterSecret(lib, l), l.key, done), NoFault).0 ==
               WithStatus(AfterSecret(lib, l), l.key, done)
            && Outcome(lib, l.w, l.key, l.r, l.now, l.drawn) == WithStatus(AfterSecret(lib, l), l.key, done)
  {
  }

  lemma PersistStep(lib: Libraries, l: Live, t: State, e: Event)
    requires CanLive(lib, l) && Answered(e) && Writing(lib, l, 10, t)
    ensures Writing(lib, l, 11, Next(lib, t, e))
  {
    PersistGoes(lib, l);
    PersistedState(lib, t, e);
  }

  lemma PersistedState(lib: Libraries, t: State, e: Event)
    requires t.pass.PersistReady? && Answered(e)
    ensures Next(lib, t, e) == t.(world := Attempt(t.world, TryUpdateStatus(t.world, t.pass.key, t.pass.cred), NoFault).0, pass := Idle)
  {
    assert e.fault == NoFault;
  }

  lemma LiveStep(lib: Libraries, l: Live, n: nat, t: State, e: Event)
    requires CanLive(lib, l) && ProperDigest(lib) && Answered(e) && 1 <= n && LiveAt(lib, l, n, t)
    requires l.r == ResolvedOf(lib, l.key, Read(l), l.policy, l.provider)
    requires n == 6 ==> e.now == l.now && e.drawn == Some(l.drawn)
    ensures LiveAt(lib, l, n + 1, Next(lib, t, e))
  {
    if n <= 4 {
      ReadStep(lib, l, n, t, e);
    } else if n == 5 {
      TlsGoes(lib, l);
      TlsStep(lib, l, t, e);
    } else if n == 6 {
      TargetStep(lib, l, t, e);
    } else if n == 7 {
      ConnectStep(lib, l, t, e);
    } else if n == 8 {
      DefinitionAccepted(lib, l.w, l.key, l.policy, l.provider, PlanOf(l).password);
      DefineStep(lib, l, t, e);
    } else if n == 9 {
      SecretStep(lib, l, t, e);
    } else if n == 10 {
      PersistStep(lib, l, t, e);
    }
  }

  lemma {:induction false} LiveAfter(lib: Libraries, l: Live, ts: seq<State>, es: seq<Event>, n: nat)
    requires AnsweredPass(l.key, es) && IsTrace(lib, ts, es) && CanLive(lib, l) && LiveAt(lib, l, 1, ts[1])
    requires ProperDigest(lib) && l.r == ResolvedOf(lib, l.key, Read(l), l.policy, l.provider)
    requires es[6].now == l.now && es[6].drawn == Some(l.drawn) && 1 <= n <= |es|
    ensures LiveAt(lib, l, n, ts[n])
    decreases n
  {
    if n > 1 {
      LiveAfter(lib, l, ts, es, n - 1);
      assert ts[n - 1 + 1] == Next(lib, ts[n - 1], es[n - 1]);
      LiveStep(lib, l, n - 1, ts[n - 1], es[n - 1]);
    }
  }

  // ----- what the outcome holds -----

  /** The status says what a completed pass says, apart from the schedule. */
  predicate Recorded(c: Credential, r: Resolved) {
    var st := c.status;
    && st.providerRef == Some(r.policy.providerRef) && st.surrealNamespace == r.policy.surrealNamespace
    && st.database == c.spec.database && st.username == r.username && st.observedGeneration == c.generation
    && Lookup(st.conditions, POLICY_ACCEPTED) == Some(Condition(True, "Allowed", c.generation))
    && Lookup(st.conditions, USER_DEFINED) == Some(Condition(True, "DefineUserSucceeded", c.generation))
    && Lookup(st.conditions, SECRET_READY) == Some(Condition(True, "SecretWritten", c.generation))
    && Lookup(st.conditions, READY) == Some(Condition(True, "Reconciled", c.generation))
  }

  lemma SetAgain(c: Credential, kind: string, status: ConditionStatus, reason: string)
    requires Lookup(c.status.conditions, kind) == Some(Condition(status, reason, c.generation))
    ensures SetCondition(c, kind, status, reason) == c
  {
  }

  /** Recording the same again changes nothing but the schedule. */
  lemma RecordedAgain(c: Credential, r: Resolved, d: Rotation.Decision)
    requires Recorded(c, r)
    ensures Accepted(c, r) == c && UserIsDefined(c) == c
    ensures Completed(c, d) == c.(status := WithSchedule(c.status, Rotation.Planned(ScheduleOf(c.status), d)))
  {
    SetAgain(c, POLICY_ACCEPTED, True, "Allowed");
    SetAgain(c, USER_DEFINED, True, "DefineUserSucceeded");
    SetAgain(c, SECRET_READY, True, "SecretWritten");
    SetAgain(c, READY, True, "Reconciled");
  }

  lemma CompletedIsRecorded(c: Credential, r: Resolved, d: Rotation.Decision, v: Credential)
    requires var done := Completed(UserIsDefined(Accepted(c, r)), d);
             v == c.(status := StoredStatus(done.status), version := v.version)
    ensures Recorded(v, r) && IsReady(v)
    ensures ScheduleOf(v.status) == Rotation.Persisted(Rotation.Planned(ScheduleOf(c.status), d))
  {
  }

  /** The stores after the pass, part by part. */
  lemma OutcomeParts(lib: Libraries, l: Live)
    requires l.key in l.w.credentials && FINALIZER in Read(l).finalizers
    ensures var v := Outcome(lib, l.w, l.key, l.r, l.now, l.drawn);
            && v.secrets == AfterSecret(lib, l).secrets && v.users == AfterUser(lib, l).users
            && v.policies == l.w.policies && v.providers == l.w.providers
            && l.key in v.credentials
            && v.credentials[l.key] == Read(l).(
                 status := StoredStatus(Completed(UserIsDefined(InMemory(l)), PlanOf(l).decision).status),
                 version := v.credentials[l.key].version)
  {
    SecretIsWritten(lib, l);
    var w2, done := AfterSecret(lib, l), Completed(UserIsDefined(InMemory(l)), PlanOf(l).decision);
    assert IsFresh(w2, l.key, done);
    StatusWriteEffect(w2, l.key, done, TryUpdateStatus(w2, l.key, done).value);
  }

  lemma SecretParts(lib: Libraries, l: Live)
    requires l.key in l.w.credentials
    ensures var k := TargetKey(l.key, Read(l));
            && k in AfterSecret(lib, l).secrets
            && var s := AfterSecret(lib, l).secrets[k];
               s == DesiredSecret(lib, l.key, Read(l), l.r, PlanOf(l).password).(version := s.version)
  {
  }

  /** The writes of a pass, taken together: the Secret keeps the password of the login that was defined. */
  lemma OutcomeDelivers(lib: Libraries, l: Live)
    requires l.key in l.w.credentials && FINALIZER in Read(l).finalizers && Nameable(SurrealTarget(Read(l), l.r))
    ensures var v := Outcome(lib, l.w, l.key, l.r, l.now, l.drawn);
            && l.key in v.credentials && IsReady(v.credentials[l.key])
            && Keeps(lib, v, l.key, v.credentials[l.key], l.r, PlanOf(l).password)
            && Defined(lib, v, v.credentials[l.key], l.r, PlanOf(l).password)
  {
    OutcomeParts(lib, l);
    SecretIsWritten(lib, l);
    var v := Outcome(lib, l.w, l.key, l.r, l.now, l.drawn);
    CompletedIsRecorded(Read(l), l.r, PlanOf(l).decision, v.credentials[l.key]);
    SecretWriteDelivers(lib, AfterUser(lib, l), WriteSecret(l.key, UserIsDefined(InMemory(l)), l.r, PlanOf(l)), AfterSecret(lib, l));
    var c := v.credentials[l.key];
    assert UserOf(c, l.r) == UserOf(InMemory(l), l.r) && LocatedFor(c, l.r) == LocatedFor(InMemory(l), l.r);
  }

  /** The events make the pass: every call answered, this clock and this draw at the target Secret. */
  predicate Makes(lib: Libraries, l: Live, es: seq<Event>) {
    && CanLive(lib, l) && l.r == ResolvedOf(lib, l.key, Read(l), l.policy, l.provider)
    && AnsweredPass(l.key, es) && es[6].now == l.now && es[6].drawn == Some(l.drawn)
  }

  /** Idle, with the outcome stored: Ready, and the Secret keeps the password of the login that was defined. */
  predicate LeftReady(lib: Libraries, l: Live, t: State)
    requires l.key in l.w.credentials
  {
    && t.pass.Idle? && t.world == Outcome(lib, l.w, l.key, l.r, l.now, l.drawn)
    && l.key in t.world.credentials && IsReady(t.world.credentials[l.key])
    && Keeps(lib, t.world, l.key, t.world.credentials[l.key], l.r, PlanOf(l).password)
    && Defined(lib, t.world, t.world.credentials[l.key], l.r, PlanOf(l).password)
  }

  lemma LiveStart(lib: Libraries, l: Live, s: State)
    requires CanLive(lib, l) && s.pass.Idle? && s.world == l.w
    ensures LiveAt(lib, l, 1, Next(lib, s, Begin(l.key)))
  {
  }

  lemma LiveEnd(lib: Libraries, l: Live, n: nat, t: State)
    requires CanLive(lib, l) && 11 <= n && LiveAt(lib, l, n, t) && l.r == ResolvedOf(lib, l.key, Read(l), l.policy, l.provider)
    ensures LeftReady(lib, l, t)
  {
    OutcomeDelivers(lib, l);
  }

  lemma TraceEndsReady(lib: Libraries, l: Live, ts: seq<State>, es: seq<Event>)
    requires Makes(lib, l, es) && ProperDigest(lib) && IsTrace(lib, ts, es) && ts[0].pass.Idle? && ts[0].world == l.w
    ensures LeftReady(lib, l, ts[|es|])
  {
    assert ts[0 + 1] == Next(lib, ts[0], es[0]);
    LiveStart(lib, l, ts[0]);
    LiveAfter(lib, l, ts, es, |es|);
    LiveEnd(lib, l, |es|, ts[|es|]);
  }

  /**
   * One pass with every call answered completes from every mix of leftovers: an absent or owned Secret,
   * any remote user. It ends with Ready stored and the Secret keeping the password of the login defined.
   */
  lemma AnsweredPassCompletes(lib: Libraries, l: Live, s: State, es: seq<Event>)
    requires s.pass.Idle? && s.world == l.w && Makes(lib, l, es) && ProperDigest(lib)
    ensures LeftReady(lib, l, Run(lib, s, es))
  {
    var ts := TraceOf(lib, s, es);
    TraceEndsReady(lib, l, ts, es);
  }

  // ----- doing it again -----

  /** A later pass over the outcome of an earlier one: same references, clock not gone back and before the next rotation. */
  predicate QuietLater(lib: Libraries, l: Live, later: Live) {
    && l.key in l.w.credentials && FINALIZER in Read(l).finalizers
    && later.w == Outcome(lib, l.w, l.key, l.r, l.now, l.drawn)
    && later.key == l.key && later.r == l.r && l.key in later.w.credentials
    && l.now <= later.now
    && var next := later.w.credentials[l.key].status.nextRotation;
       next.Some? ==> later.now < next.value
  }

  /** The later pass finds the password the earlier one left, and records the same status. */
  lemma LaterSees(lib: Libraries, l: Live, later: Live)
    requires QuietLater(lib, l, later) && PlanOf(l).password != ""
    ensures Recorded(Read(later), l.r) && InMemory(later) == Read(later)
    ensures ExistingPassword(PlanOf(later).existing) == Some(PlanOf(l).password)
    ensures ScheduleOf(Read(later).status) == Rotation.Complete(ScheduleOf(Read(l).status), PlanOf(l).seen)
    ensures Rotation.QuietFollowUp(ScheduleOf(Read(l).status), PlanOf(l).seen, PlanOf(later).seen)
  {
    OutcomeParts(lib, l);
    SecretParts(lib, l);
    CompletedIsRecorded(Read(l), l.r, PlanOf(l).decision, Read(later));
    RecordedAgain(Read(later), l.r, PlanOf(later).decision);
    assert ScheduleOf(InMemory(l).status) == ScheduleOf(Read(l).status);
    assert TargetKey(l.key, Read(later)) == TargetKey(l.key, Read(l));
  }

  /** Keeping the password, the later pass defines the same user and writes the same Secret. */
  lemma ReuseChangesNothing(lib: Libraries, l: Live, later: Live)
    requires QuietLater(lib, l, later) && PlanOf(l).password != ""
    requires PlanOf(later).decision.action.Reuse?
    ensures AfterUser(lib, later) == later.w && AfterSecret(lib, later) == later.w
  {
    LaterSees(lib, l, later);
    OutcomeParts(lib, l);
    RecordedAgain(Read(later), l.r, PlanOf(later).decision);
    var u := LocatedFor(InMemory(later), l.r);
    assert u == LocatedFor(InMemory(l), l.r);
    assert later.w.users == later.w.users[u := Login(ReadBack(lib, PlanOf(l).password), Distinct(Read(l).spec.roles))];
    SecretWrittenAgain(lib, l, later);
  }

  lemma SecretWrittenAgain(lib: Libraries, l: Live, later: Live)
    requires QuietLater(lib, l, later) && InMemory(later) == Read(later) && UserIsDefined(Read(later)) == Read(later)
    requires PlanOf(later).password == PlanOf(l).password && AfterUser(lib, later) == later.w
    ensures AfterSecret(lib, later) == later.w
  {
    OutcomeParts(lib, l);
    SecretParts(lib, l);
    assert TargetKey(l.key, Read(later)) == TargetKey(l.key, Read(l));
    assert DesiredSecret(lib, l.key, Read(later), l.r, PlanOf(l).password) == DesiredSecret(lib, l.key, Read(l), l.r, PlanOf(l).password);
  }

  /** A rotation shows in the Secret. */
  lemma RotationShows(lib: Libraries, l: Live, later: Live)
    requires QuietLater(lib, l, later) && PlanOf(l).password != "" && later.drawn != PlanOf(l).password
    requires !PlanOf(later).decision.action.Reuse?
    ensures Outcome(lib, later.w, later.key, later.r, later.now, later.drawn) != later.w
  {
    LaterSees(lib, l, later);
    OutcomeParts(lib, l);
    OutcomeParts(lib, later);
    SecretParts(lib, l);
    SecretParts(lib, later);
    var k := TargetKey(l.key, Read(later));
    assert k == TargetKey(l.key, Read(l));
    assert later.w.secrets[k].data["password"] == PlanOf(l).password;
    assert AfterSecret(lib, later).secrets[k].data["password"] == later.drawn;
  }

  lemma ScheduleStored(st: CredentialStatus, s: Rotation.Schedule)
    ensures StoredStatus(WithSchedule(st, s)) == WithSchedule(st, Rotation.Persisted(s))
    ensures WithSchedule(st, s) == st <==> s == ScheduleOf(st)
  {
  }

  /** A status write changes the stores exactly when it changes the stored status. */
  lemma StatusWriteChanges(w: World, key: NamespacedName, c: Credential)
    requires IsFresh(w, key, c) && w.credentials[key].finalizers != {}
    ensures WithStatus(w, key, c) == w <==> StoredStatus(c.status) == w.credentials[key].status
  {
    var v := WithStatus(w, key, c);
    StatusWriteEffect(w, key, c, v);
  }

  /** With user and Secret unchanged, the outcome differs by the stored schedule alone. */
  lemma StatusDecides(lib: Libraries, l: Live, later: Live)
    requires QuietLater(lib, l, later) && PlanOf(l).password != "" && AfterSecret(lib, later) == later.w
    ensures Outcome(lib, later.w, later.key, later.r, later.now, later.drawn) == later.w <==>
            Rotation.Complete(ScheduleOf(Read(later).status), PlanOf(later).seen) == ScheduleOf(Read(later).status)
  {
    LaterSees(lib, l, later);
    OutcomeParts(lib, l);
    var c, d := Read(later), PlanOf(later).decision;
    var planned := Rotation.Planned(ScheduleOf(c.status), d);
    RecordedAgain(c, l.r, d);
    ScheduleStored(c.status, planned);
    ScheduleStored(c.status, Rotation.Persisted(planned));
    StatusWriteChanges(later.w, later.key, Completed(UserIsDefined(InMemory(later)), d));
  }

  /**
   * Fixed point. After a completed pass, a later one over unchanged inputs, before the stored next
   * rotation, leaves every store exactly as it is (versions included) if and only if the first pass
   * kept its password, or had no period, or its clock and period do not carry into one more second.
   */
  lemma AgainChangesNothingIff(lib: Libraries, l: Live, later: Live)
    requires QuietLater(lib, l, later) && PlanOf(l).password != "" && later.drawn != PlanOf(l).password
    requires Rotation.Stored(ScheduleOf(Read(l).status))
    ensures Outcome(lib, later.w, later.key, later.r, later.now, later.drawn) == later.w <==>
            Rotation.Settles(ScheduleOf(Read(l).status), PlanOf(l).seen)
  {
    LaterSees(lib, l, later);
    Rotation.FixedPointIff(ScheduleOf(Read(l).status), PlanOf(l).seen, PlanOf(later).seen);
    if PlanOf(later).decision.action.Reuse? {
      ReuseChangesNothing(lib, l, later);
      StatusDecides(lib, l, later);
    } else {
      RotationShows(lib, l, later);
    }
  }

  /**
   * The later pass resolves and may complete exactly when the provider's Secrets are still in order,
   * which they are unless the target Secret is one of them.
   */
  lemma LaterCanLiveIff(lib: Libraries, l: Live, later: Live)
    requires CanLive(lib, l) && QuietLater(lib, l, later) && later.policy == l.policy && later.provider == l.provider
    requires l.r == ResolvedOf(lib, l.key, Read(l), l.policy, l.provider)
    ensures CanLive(lib, later) <==> Providers.InOrder(lib, later.w.secrets, l.provider)
    ensures TargetKey(l.key, Read(l)) !in Providers.References(l.provider) ==> CanLive(lib, later)
    ensures later.r == ResolvedOf(lib, later.key, Read(later), later.policy, later.provider)
  {
    OutcomeParts(lib, l);
    LaterManages(lib, l, later);
    LaterResolvesIff(lib, l, later);
    assert RequestOf(Read(later)) == RequestOf(Read(l));
    if TargetKey(l.key, Read(l)) !in Providers.References(l.provider) {
      OtherSecretsStay(lib, l);
      OrderReadsReferences(lib, l.w.secrets, later.w.secrets, l.provider);
      Providers.MaterialIff(lib, l.w.secrets, l.provider);
    }
  }

  lemma LaterManages(lib: Libraries, l: Live, later: Live)
    requires CanLive(lib, l) && QuietLater(lib, l, later)
    ensures CanManage(Lookup(later.w.secrets, TargetKey(later.key, Read(later))), later.key.name, Read(later).uid)
  {
    OutcomeParts(lib, l);
    SecretParts(lib, l);
    DesiredConnects(lib, l.key, Read(l), l.r, PlanOf(l).password);
    assert TargetKey(l.key, Read(later)) == TargetKey(l.key, Read(l));
  }

  lemma LaterResolvesIff(lib: Libraries, l: Live, later: Live)
    requires CanLive(lib, l) && QuietLater(lib, l, later) && later.policy == l.policy && later.provider == l.provider
    ensures Resolve(lib, later.w, later.key, Read(later)) == Some((l.policy, l.provider))
            <==> Providers.InOrder(lib, later.w.secrets, l.provider)
  {
    OutcomeParts(lib, l);
    Providers.MaterialIff(lib, later.w.secrets, l.provider);
    assert Read(later).spec == Read(l).spec;
  }

  lemma OtherSecretsStay(lib: Libraries, l: Live)
    requires l.key in l.w.credentials
    ensures forall k :: k != TargetKey(l.key, Read(l)) ==> Lookup(AfterSecret(lib, l).secrets, k) == Lookup(l.w.secrets, k)
  {
  }

  /** Stores that agree on the references are in order alike. */
  lemma OrderReadsReferences(lib: Libraries, a: map<NamespacedName, Secret>, b: map<NamespacedName, Secret>, spec: ProviderSpec)
    requires forall k :: k in Providers.References(spec) ==> Lookup(a, k) == Lookup(b, k)
    ensures Providers.InOrder(lib, a, spec) <==> Providers.InOrder(lib, b, spec)
  {
    Providers.ReferencesAreNeeded(spec);
    forall need | need in Providers.Needs(spec)
      ensures Providers.Stored(a, need) == Providers.Stored(b, need)
    {
      assert need.0 in Providers.NeededSecrets(spec);
    }
    Providers.MaterialFields(spec);
  }

  /**
   * The same of the machine: two passes with every call answered. That the second one resolves and
   * completes is part of the result.
   */
  lemma SecondPassChangesNothingIff(lib: Libraries, l: Live, later: Live, s: State, first: seq<Event>, second: seq<Event>)
    requires s.pass.Idle? && s.world == l.w && Makes(lib, l, first) && ProperDigest(lib)
    requires QuietLater(lib, l, later) && later.policy == l.policy && later.provider == l.provider
    requires AnsweredPass(l.key, second) && second[6].now == later.now && second[6].drawn == Some(later.drawn)
    requires TargetKey(l.key, Read(l)) !in Providers.References(l.provider)
    requires PlanOf(l).password != "" && later.drawn != PlanOf(l).password
    requires Rotation.Stored(ScheduleOf(Read(l).status))
    ensures var t := Run(lib, s, first);
            && LeftReady(lib, later, Run(lib, t, second))
            && (Run(lib, t, second).world == t.world <==> Rotation.Settles(ScheduleOf(Read(l).status), PlanOf(l).seen))
  {
    AnsweredPassCompletes(lib, l, s, first);
    LaterCanLiveIff(lib, l, later);
    AnsweredPassCompletes(lib, later, Run(lib, s, first), second);
    AgainChangesNothingIff(lib, l, later);
  }

  /** Without a period, or with one of whole seconds, the stores always stay. */
  lemma WholePeriodsChangeNothing(lib: Libraries, l: Live, later: Live)
    requires QuietLater(lib, l, later) && PlanOf(l).password != "" && later.drawn != PlanOf(l).password
    requires Rotation.Stored(ScheduleOf(Read(l).status))
    requires Read(l).spec.period.None? || Read(l).spec.period.value % Rotation.SECOND == 0
    ensures Outcome(lib, later.w, later.key, later.r, later.now, later.drawn) == later.w
  {
    AgainChangesNothingIff(lib, l, later);
  }
}
