/**
 * Deletion progress: passes on a deleting credential, with nobody else writing, only ever take things
 * away, in the order user, Secret, finalizer; and one undisturbed pass takes everything.
 */
module Deletion {
  import opened Prelude
  import opened Platform
  import opened Api
  import opened Cluster
  import opened Policy
  import opened Queries
  import opened QueryMeaning
  import opened Server
  import opened TargetSecret
  import opened Tls
  import opened Protocol
  import opened Cleanup
  import Providers
  import SurrealQL
  import Username

  /** How much is left: the managed user, the owned Secret, the finalizer. */
  function Remaining(pin: Pin, w: World): nat {
    (if pin.user in w.users then 1 else 0) + (if Claimed(pin, w) then 1 else 0) + (if Guarded(pin, w) then 1 else 0)
  }

  predicate LivePass(pass: Pass) {
    pass.AddFinalizer? || pass.GetTarget? || pass.Connect? || pass.Define? || pass.WriteSecret? || pass.PersistReady?
  }

  /** The credential is deleting, and so it was when the pass read it. */
  predicate Dismantling(pin: Pin, s: State) {
    && Inv(pin, s)
    && (pin.key in s.world.credentials ==> s.world.credentials[pin.key].deleting)
    && (HasCredential(s.pass) ==> s.pass.cred.deleting)
    && !LivePass(s.pass)
    && (s.pass.DropFinalizer? ==> FINALIZER !in s.pass.latest.finalizers)
  }

  /** Nothing comes back, and things go in order. */
  predicate Shrinks(pin: Pin, w: World, v: World) {
    && (pin.user in v.users ==> pin.user in w.users)
    && (Claimed(pin, v) ==> Claimed(pin, w))
    && (Guarded(pin, v) ==> Guarded(pin, w))
    && (Claimed(pin, w) && !Claimed(pin, v) ==> pin.user !in v.users)
    && (Guarded(pin, w) && !Guarded(pin, v) ==> Cleared(pin, v))
  }

  /** No outside writer; passes begin on the credential under study. */
  predicate Undisturbed(pin: Pin, es: seq<Event>) {
    forall i :: 0 <= i < |es| ==> !es[i].Outside? && (es[i].Begin? ==> es[i].key == pin.key)
  }

  // ----- one step -----

  lemma ReadShrinks(lib: Libraries, pin: Pin, s: State, fault: Fault, now: int, drawn: Option<string>)
    requires Dismantling(pin, s)
    requires s.pass.GetCredential? || s.pass.GetPolicy? || s.pass.GetProvider? || s.pass.GetRoot?
    ensures var t := Advance(lib, s, fault, now, drawn);
            && t.world == s.world && !LivePass(t.pass) && !t.pass.DropFinalizer?
            && (HasCredential(t.pass) ==> t.pass.cred.deleting)
  {
  }

  lemma ConnectShrinks(lib: Libraries, pin: Pin, s: State, fault: Fault, now: int, drawn: Option<string>)
    requires Dismantling(pin, s)
    requires s.pass.GetTls? || s.pass.ConnectToRemove? || s.pass.GetLatest?
    ensures var t := Advance(lib, s, fault, now, drawn);
            && t.world == s.world && !LivePass(t.pass)
            && (HasCredential(t.pass) ==> t.pass.cred.deleting)
            && (t.pass.DropFinalizer? ==> FINALIZER !in t.pass.latest.finalizers)
  {
  }

  /** Writes to the credential keep it deleting. */
  lemma CredentialWriteShrinks(lib: Libraries, pin: Pin, s: State, fault: Fault, now: int, drawn: Option<string>)
    requires Dismantling(pin, s) && (s.pass.WriteStatus? || s.pass.DropFinalizer?)
    ensures var t := Advance(lib, s, fault, now, drawn);
            && t.world.users == s.world.users && t.world.secrets == s.world.secrets
            && (Guarded(pin, t.world) ==> Guarded(pin, s.world))
            && (Guarded(pin, s.world) && !Guarded(pin, t.world) ==> Cleared(pin, s.world))
            && (pin.key in t.world.credentials ==> t.world.credentials[pin.key].deleting)
            && !LivePass(t.pass) && !t.pass.DropFinalizer? && (HasCredential(t.pass) ==> t.pass.cred.deleting)
  {
    var w := s.world;
    if s.pass.WriteStatus? {
      var attempt := TryUpdateStatus(w, pin.key, s.pass.cred);
      if attempt.Some? {
        StatusWriteEffect(w, pin.key, s.pass.cred, attempt.value);
      }
    } else {
      var attempt := TryUpdateObject(w, pin.key, s.pass.latest);
      if attempt.Some? {
        ObjectWriteEffect(w, pin.key, s.pass.latest, attempt.value);
      }
    }
  }

  lemma UserRemovalShrinks(lib: Libraries, pin: Pin, s: State, fault: Fault, now: int, drawn: Option<string>)
    requires Dismantling(pin, s) && s.pass.RemoveUser? && ManagesUser(lib, pin) && ProperDigest(lib)
    ensures var t := Advance(lib, s, fault, now, drawn);
            && t.world.credentials == s.world.credentials && t.world.secrets == s.world.secrets
            && t.world.users.Keys <= s.world.users.Keys
            && !LivePass(t.pass) && !t.pass.DropFinalizer? && (HasCredential(t.pass) ==> t.pass.cred.deleting)
  {
    RemovalTakesManaged(lib, pin, s.world, s.pass.cred, s.pass.resolved);
  }

  lemma SecretRemovalShrinks(lib: Libraries, pin: Pin, s: State, fault: Fault, now: int, drawn: Option<string>)
    requires Dismantling(pin, s) && s.pass.DeleteSecret?
    ensures var t := Advance(lib, s, fault, now, drawn);
            && t.world.credentials == s.world.credentials && t.world.users == s.world.users
            && (t.world.secrets == s.world.secrets || pin.user !in t.world.users)
            && (Claimed(pin, t.world) ==> Claimed(pin, s.world))
            && !LivePass(t.pass) && !t.pass.DropFinalizer? && (HasCredential(t.pass) ==> t.pass.cred.deleting)
  {
  }

  /** Removing the user, or the Secret once the user is gone. */
  lemma RemovalShrinks(lib: Libraries, pin: Pin, s: State, fault: Fault, now: int, drawn: Option<string>)
    requires Dismantling(pin, s) && (s.pass.RemoveUser? || s.pass.DeleteSecret?) && ManagesUser(lib, pin) && ProperDigest(lib)
    ensures var t := Advance(lib, s, fault, now, drawn);
            && t.world.credentials == s.world.credentials
            && t.world.users.Keys <= s.world.users.Keys
            && (t.world.secrets == s.world.secrets || pin.user !in t.world.users)
            && (Claimed(pin, t.world) ==> Claimed(pin, s.world))
            && !LivePass(t.pass) && !t.pass.DropFinalizer? && (HasCredential(t.pass) ==> t.pass.cred.deleting)
  {
    if s.pass.RemoveUser? {
      UserRemovalShrinks(lib, pin, s, fault, now, drawn);
      assert Claimed(pin, Advance(lib, s, fault, now, drawn).world) <==> Claimed(pin, s.world);
    } else {
      SecretRemovalShrinks(lib, pin, s, fault, now, drawn);
    }
  }

  lemma DismantlingStep(lib: Libraries, pin: Pin, s: State, e: Event)
    requires Dismantling(pin, s) && ManagesUser(lib, pin) && ProperDigest(lib) && Undisturbed(pin, [e])
    ensures Dismantling(pin, Next(lib, s, e)) && Shrinks(pin, s.world, Next(lib, s, e).world)
  {
    assert [e][0] == e;
    StepKeeps(lib, pin, s, e);
    if e.Proceed? && !s.pass.Idle? {
      var t := Advance(lib, s, e.fault, e.now, e.drawn);
      if s.pass.WriteStatus? || s.pass.DropFinalizer? {
        CredentialWriteShrinks(lib, pin, s, e.fault, e.now, e.drawn);
        assert Claimed(pin, t.world) <==> Claimed(pin, s.world);
      } else if s.pass.RemoveUser? || s.pass.DeleteSecret? {
        RemovalShrinks(lib, pin, s, e.fault, e.now, e.drawn);
        assert t.world.secrets == s.world.secrets ==> (Claimed(pin, t.world) <==> Claimed(pin, s.world));
      } else if s.pass.GetTls? || s.pass.ConnectToRemove? || s.pass.GetLatest? {
        ConnectShrinks(lib, pin, s, e.fault, e.now, e.drawn);
      } else {
        ReadShrinks(lib, pin, s, e.fault, e.now, e.drawn);
      }
    }
  }

  /**
   * Over every undisturbed run of passes, with any faults and crashes: the remaining count never
   * increases, the Secret goes only after the user, and the finalizer only after both.
   */
  lemma {:induction false} DeletionOnlyShrinks(lib: Libraries, pin: Pin, s: State, es: seq<Event>)
    requires Dismantling(pin, s) && ManagesUser(lib, pin) && ProperDigest(lib) && Undisturbed(pin, es)
    ensures var t := Run(lib, s, es);
            && Dismantling(pin, t)
            && Shrinks(pin, s.world, t.world)
            && Remaining(pin, t.world) <= Remaining(pin, s.world)
    decreases |es|
  {
    if es != [] {
      var n := |es| - 1;
      DeletionOnlyShrinks(lib, pin, s, es[..n]);
      DismantlingStep(lib, pin, Run(lib, s, es[..n]), es[n]);
    }
  }

  // ----- one undisturbed pass finishes -----

  /** Everything resolution reads is there and in order. */
  predicate Resolvable(lib: Libraries, pin: Pin, w: World) {
    pin.key in w.credentials && Resolve(lib, w, pin.key, w.credentials[pin.key]).Some?
  }

  predicate Resolving(pass: Pass) {
    pass.GetCredential? || pass.GetPolicy? || pass.GetProvider? || pass.GetRoot? || pass.GetTls?
  }

  /** Calls left to the end of the pass. */
  function CallsLeft(pass: Pass): nat {
    match pass
    case GetCredential(_) => 10
    case GetPolicy(_, _) => 9
    case GetProvider(_, _, _) => 8
    case GetRoot(_, _, _, _) => 7
    case GetTls(_, _, _, _) => 6
    case ConnectToRemove(_, _, _) => 5
    case RemoveUser(_, _, _) => 4
    case DeleteSecret(_, _) => 3
    case GetLatest(_) => 2
    case DropFinalizer(_, _) => 1
    case _ => 0
  }

  /** What the pass holds is what is stored. */
  predicate HoldsStored(pin: Pin, w: World, pass: Pass) {
    && (Resolving(pass) && !pass.GetCredential? ==> pin.key in w.credentials && pass.cred == w.credentials[pin.key])
    && (pass.GetProvider? || pass.GetRoot? || pass.GetTls? ==>
          var policyKey := NamespacedName(pin.key.namespace, pin.policyRef);
          policyKey in w.policies && pass.policy == w.policies[policyKey])
    && (pass.GetRoot? || pass.GetTls? ==> pin.provider in w.providers && pass.provider == w.providers[pin.provider])
  }

  /** A pass that has met no obstacle so far. */
  predicate OnCourse(lib: Libraries, pin: Pin, s: State) {
    var w, pass := s.world, s.pass;
    && Dismantling(pin, s)
    && !pass.WriteStatus?
    && (pass.Idle? ==> Remaining(pin, w) == 0)
    && (Resolving(pass) ==> Guarded(pin, w) && Resolvable(lib, pin, w))
    && HoldsStored(pin, w, pass)
    && (pass.DropFinalizer? ==> IsFresh(w, pin.key, pass.latest))
  }

  /** Reading what is there in order finds it. */
  lemma ReadFindsStored(lib: Libraries, pin: Pin, w: World, c: Credential, policy: PolicySpec, provider: ProviderSpec)
    requires Guarded(pin, w) && Resolvable(lib, pin, w) && c == w.credentials[pin.key] && SpecPinned(pin, c) && c.deleting
    requires policy == w.policies[NamespacedName(pin.key.namespace, pin.policyRef)] && policy.providerRef == pin.provider
    requires provider == w.providers[pin.provider]
    ensures AfterGetCredential(w, pin.key, NoFault) == GetPolicy(pin.key, c)
    ensures AfterGetPolicy(w, pin.key, c, NoFault) == GetProvider(pin.key, c, policy)
    ensures AfterGetProvider(w, pin.key, c, policy, NoFault) == GetRoot(pin.key, c, policy, provider)
    ensures AfterGetRoot(w, pin.key, c, policy, provider, NoFault) == GetTls(pin.key, c, policy, provider)
    ensures AfterGetTls(lib, w, pin.key, c, policy, provider, NoFault).ConnectToRemove?
  {
  }

  /** A resolving call that is answered moves the pass on and leaves the stores alone. */
  lemma ResolvingState(lib: Libraries, s: State, e: Event)
    requires Resolving(s.pass) && !s.pass.GetTls? && Answered(e)
    ensures var t := Next(lib, s, e);
            && t.world == s.world
            && t.pass == match s.pass
                         case GetCredential(key) => AfterGetCredential(s.world, key, NoFault)
                         case GetPolicy(key, c) => AfterGetPolicy(s.world, key, c, NoFault)
                         case GetProvider(key, c, p) => AfterGetProvider(s.world, key, c, p, NoFault)
                         case GetRoot(key, c, p, v) => AfterGetRoot(s.world, key, c, p, v, NoFault)
                         case _ => Idle
  {
    assert e.fault == NoFault;
  }

  /** The pass of the next call, by what is stored. */
  function FoundNext(pin: Pin, pass: Pass, c: Credential, policy: PolicySpec, provider: ProviderSpec): Pass {
    if pass.GetCredential? then GetPolicy(pin.key, c)
    else if pass.GetPolicy? then GetProvider(pin.key, c, policy)
    else if pass.GetProvider? then GetRoot(pin.key, c, policy, provider)
    else GetTls(pin.key, c, policy, provider)
  }

  lemma ResolvingFinds(lib: Libraries, pin: Pin, s: State, e: Event, c: Credential, policy: PolicySpec, provider: ProviderSpec)
    requires Resolving(s.pass) && !s.pass.GetTls? && Answered(e) && s.pass.key == pin.key && HoldsStored(pin, s.world, s.pass)
    requires pin.key in s.world.credentials && c == s.world.credentials[pin.key]
    requires NamespacedName(pin.key.namespace, pin.policyRef) in s.world.policies
    requires policy == s.world.policies[NamespacedName(pin.key.namespace, pin.policyRef)]
    requires pin.provider in s.world.providers && provider == s.world.providers[pin.provider]
    requires AfterGetCredential(s.world, pin.key, NoFault) == GetPolicy(pin.key, c)
    requires AfterGetPolicy(s.world, pin.key, c, NoFault) == GetProvider(pin.key, c, policy)
    requires AfterGetProvider(s.world, pin.key, c, policy, NoFault) == GetRoot(pin.key, c, policy, provider)
    requires AfterGetRoot(s.world, pin.key, c, policy, provider, NoFault) == GetTls(pin.key, c, policy, provider)
    ensures Next(lib, s, e).world == s.world && Next(lib, s, e).pass == FoundNext(pin, s.pass, c, policy, provider)
  {
    ResolvingState(lib, s, e);
  }

  lemma FoundNextHolds(pin: Pin, w: World, pass: Pass, c: Credential, policy: PolicySpec, provider: ProviderSpec)
    requires Resolving(pass) && !pass.GetTls?
    requires pin.key in w.credentials && c == w.credentials[pin.key]
    requires NamespacedName(pin.key.namespace, pin.policyRef) in w.policies
    requires policy == w.policies[NamespacedName(pin.key.namespace, pin.policyRef)]
    requires pin.provider in w.providers && provider == w.providers[pin.provider]
    ensures var q := FoundNext(pin, pass, c, policy, provider);
            CallsLeft(q) == CallsLeft(pass) - 1 && Resolving(q) && HoldsStored(pin, w, q)
  {
  }

  lemma ResolvingOnCourse(lib: Libraries, pin: Pin, s: State, e: Event)
    requires OnCourse(lib, pin, s) && Resolving(s.pass) && !s.pass.GetTls? && Answered(e)
    ensures var t := Next(lib, s, e);
            t.world == s.world && CallsLeft(t.pass) == CallsLeft(s.pass) - 1 && Resolving(t.pass) && HoldsStored(pin, t.world, t.pass)
  {
    var w := s.world;
    var c, policy, provider := w.credentials[pin.key], w.policies[NamespacedName(pin.key.namespace, pin.policyRef)], w.providers[pin.provider];
    ReadFindsStored(lib, pin, w, c, policy, provider);
    ResolvingFinds(lib, pin, s, e, c, policy, provider);
    FoundNextHolds(pin, w, s.pass, c, policy, provider);
  }

  lemma TlsOnCourse(lib: Libraries, pin: Pin, s: State, e: Event)
    requires OnCourse(lib, pin, s) && s.pass.GetTls? && Answered(e)
    ensures var t := Next(lib, s, e); t.world == s.world && t.pass.ConnectToRemove?
  {
    var w := s.world;
    ReadFindsStored(lib, pin, w, w.credentials[pin.key], w.policies[NamespacedName(pin.key.namespace, pin.policyRef)], w.providers[pin.provider]);
    assert e.fault == NoFault;
  }

  predicate RemovalEnds(pin: Pin, t: State) {
    && (t.pass.Idle? ==> !Guarded(pin, t.world))
    && (t.pass.DropFinalizer? ==> IsFresh(t.world, pin.key, t.pass.latest))
  }

  lemma RemoveUserOnCourse(lib: Libraries, pin: Pin, s: State, e: Event)
    requires OnCourse(lib, pin, s) && Answered(e) && s.pass.RemoveUser?
    requires ManagesUser(lib, pin) && ProperDigest(lib) && Nameable(PinnedScope(pin))
    ensures Next(lib, s, e).pass.DeleteSecret?
  {
    RemovalTakesManaged(lib, pin, s.world, s.pass.cred, s.pass.resolved);
    assert e.fault == NoFault;
  }

  lemma RemovalOnCourse(lib: Libraries, pin: Pin, s: State, e: Event)
    requires OnCourse(lib, pin, s) && Answered(e) && (s.pass.ConnectToRemove? || s.pass.DeleteSecret?)
    ensures var t := Next(lib, s, e);
            CallsLeft(t.pass) < CallsLeft(s.pass) && !Resolving(t.pass) && !t.pass.WriteStatus? && RemovalEnds(pin, t)
  {
    assert e.fault == NoFault;
  }

  lemma FinalizerOnCourse(lib: Libraries, pin: Pin, s: State, e: Event)
    requires OnCourse(lib, pin, s) && (s.pass.GetLatest? || s.pass.DropFinalizer?) && Answered(e)
    ensures var t := Next(lib, s, e);
            && CallsLeft(t.pass) < CallsLeft(s.pass) && !Resolving(t.pass) && !t.pass.WriteStatus? && RemovalEnds(pin, t)
            && t.world.users == s.world.users && t.world.secrets == s.world.secrets
  {
    if s.pass.DropFinalizer? {
      ObjectWriteEffect(s.world, pin.key, s.pass.latest, TryUpdateObject(s.world, pin.key, s.pass.latest).value);
    }
  }

  lemma OnCourseStep(lib: Libraries, pin: Pin, s: State, e: Event)
    requires OnCourse(lib, pin, s) && ManagesUser(lib, pin) && ProperDigest(lib) && Nameable(PinnedScope(pin)) && Answered(e)
    ensures var t := Next(lib, s, e);
            && OnCourse(lib, pin, t)
            && (CallsLeft(t.pass) < CallsLeft(s.pass) || CallsLeft(s.pass) == 0 == CallsLeft(t.pass))
  {
    DismantlingStep(lib, pin, s, e);
    var t := Next(lib, s, e);
    if s.pass.GetTls? {
      TlsOnCourse(lib, pin, s, e);
    } else if Resolving(s.pass) {
      ResolvingOnCourse(lib, pin, s, e);
    } else if s.pass.RemoveUser? {
      RemoveUserOnCourse(lib, pin, s, e);
    } else if s.pass.ConnectToRemove? || s.pass.DeleteSecret? {
      RemovalOnCourse(lib, pin, s, e);
    } else if !s.pass.Idle? {
      FinalizerOnCourse(lib, pin, s, e);
      assert t.pass.Idle? ==> (Claimed(pin, t.world) <==> Claimed(pin, s.world));
    }
  }

  /** The state at the start of a deletion pass. */
  predicate MayBegin(lib: Libraries, pin: Pin, s: State) {
    Dismantling(pin, s) && s.pass.Idle? && Guarded(pin, s.world) && Resolvable(lib, pin, s.world)
  }

  lemma CourseStart(lib: Libraries, pin: Pin, s: State)
    requires MayBegin(lib, pin, s) && ManagesUser(lib, pin) && ProperDigest(lib)
    ensures var t := Next(lib, s, Begin(pin.key));
            OnCourse(lib, pin, t) && CallsLeft(t.pass) == 10
  {
  }

  predicate Course(lib: Libraries, pin: Pin, t: State, left: nat) {
    OnCourse(lib, pin, t) && CallsLeft(t.pass) <= left
  }

  lemma CourseStep(lib: Libraries, pin: Pin, s: State, e: Event, left: nat)
    requires Course(lib, pin, s, left)
    requires ManagesUser(lib, pin) && ProperDigest(lib) && Nameable(PinnedScope(pin)) && Answered(e)
    ensures Course(lib, pin, Next(lib, s, e), if left == 0 then 0 else left - 1)
  {
    OnCourseStep(lib, pin, s, e);
  }

  lemma {:induction false} CourseAfter(lib: Libraries, pin: Pin, ts: seq<State>, es: seq<Event>, n: nat)
    requires AnsweredPass(pin.key, es) && IsTrace(lib, ts, es) && Course(lib, pin, ts[1], 10)
    requires ManagesUser(lib, pin) && ProperDigest(lib) && Nameable(PinnedScope(pin)) && 1 <= n <= |es|
    ensures Course(lib, pin, ts[n], if n <= 11 then 11 - n else 0)
    decreases n
  {
    if n > 1 {
      CourseAfter(lib, pin, ts, es, n - 1);
      assert ts[n - 1 + 1] == Next(lib, ts[n - 1], es[n - 1]);
      CourseStep(lib, pin, ts[n - 1], es[n - 1], if n <= 12 then 12 - n else 0);
    }
  }

  // ----- a target that is not nameable is never cleaned up -----

  predicate Stuck(pin: Pin, w: World, s: State) {
    && Dismantling(pin, s) && Guarded(pin, s.world)
    && s.world.users == w.users && s.world.secrets == w.secrets
    && !s.pass.DeleteSecret? && !s.pass.GetLatest? && !s.pass.DropFinalizer?
  }

  lemma StuckStep(lib: Libraries, pin: Pin, w: World, s: State, e: Event)
    requires Stuck(pin, w, s) && ManagesUser(lib, pin) && ProperDigest(lib) && !Nameable(PinnedScope(pin)) && Undisturbed(pin, [e])
    ensures Stuck(pin, w, Next(lib, s, e))
  {
    assert [e][0] == e;
    DismantlingStep(lib, pin, s, e);
    if e.Proceed? {
      StuckCall(lib, pin, s, e.fault, e.now, e.drawn);
    }
  }

  /** What a stuck step leaves as it is. */
  predicate Unmoved(pin: Pin, s: State, t: State) {
    && Guarded(pin, t.world) && t.world.users == s.world.users && t.world.secrets == s.world.secrets
    && !t.pass.DeleteSecret? && !t.pass.GetLatest? && !t.pass.DropFinalizer?
  }

  lemma StuckCall(lib: Libraries, pin: Pin, s: State, fault: Fault, now: int, drawn: Option<string>)
    requires Stuck(pin, s.world, s) && ManagesUser(lib, pin) && ProperDigest(lib) && !Nameable(PinnedScope(pin))
    ensures Unmoved(pin, s, Advance(lib, s, fault, now, drawn))
  {
    if s.pass.RemoveUser? {
      StuckRemoval(lib, pin, s, fault, now, drawn);
    } else if s.pass.WriteStatus? {
      StuckStatus(lib, pin, s, fault, now, drawn);
    } else {
      StuckRead(lib, pin, s, fault, now, drawn);
    }
  }

  lemma StuckRead(lib: Libraries, pin: Pin, s: State, fault: Fault, now: int, drawn: Option<string>)
    requires Stuck(pin, s.world, s) && !s.pass.RemoveUser? && !s.pass.WriteStatus?
    ensures Unmoved(pin, s, Advance(lib, s, fault, now, drawn))
  {
  }

  lemma StuckRemoval(lib: Libraries, pin: Pin, s: State, fault: Fault, now: int, drawn: Option<string>)
    requires Stuck(pin, s.world, s) && s.pass.RemoveUser?
    requires ManagesUser(lib, pin) && ProperDigest(lib) && !Nameable(PinnedScope(pin))
    ensures Unmoved(pin, s, Advance(lib, s, fault, now, drawn))
  {
    RemovalTakesManaged(lib, pin, s.world, s.pass.cred, s.pass.resolved);
  }

  lemma StuckStatus(lib: Libraries, pin: Pin, s: State, fault: Fault, now: int, drawn: Option<string>)
    requires Stuck(pin, s.world, s) && s.pass.WriteStatus?
    ensures Unmoved(pin, s, Advance(lib, s, fault, now, drawn))
  {
    StatusWriteKeeps(pin, s.world, s.pass.cred, fault);
  }

  lemma {:induction false} StuckForever(lib: Libraries, pin: Pin, s: State, es: seq<Event>)
    requires Stuck(pin, s.world, s) && ManagesUser(lib, pin) && ProperDigest(lib) && !Nameable(PinnedScope(pin)) && Undisturbed(pin, es)
    ensures Stuck(pin, s.world, Run(lib, s, es))
    decreases |es|
  {
    if es != [] {
      var n := |es| - 1;
      StuckForever(lib, pin, s, es[..n]);
      StuckStep(lib, pin, s.world, Run(lib, s, es[..n]), es[n]);
    }
  }

  predicate Finished(pin: Pin, t: State) {
    t.pass.Idle? && Remaining(pin, t.world) == 0
  }

  lemma TraceFinishes(lib: Libraries, pin: Pin, ts: seq<State>, es: seq<Event>)
    requires AnsweredPass(pin.key, es) && IsTrace(lib, ts, es) && Course(lib, pin, ts[1], 10)
    requires ManagesUser(lib, pin) && ProperDigest(lib) && Nameable(PinnedScope(pin))
    ensures Finished(pin, ts[|es|])
  {
    CourseAfter(lib, pin, ts, es, |es|);
  }

  lemma NameablePassFinishes(lib: Libraries, pin: Pin, s: State, es: seq<Event>)
    requires MayBegin(lib, pin, s) && ManagesUser(lib, pin) && ProperDigest(lib) && AnsweredPass(pin.key, es) && Nameable(PinnedScope(pin))
    ensures Finished(pin, Run(lib, s, es))
  {
    CourseStart(lib, pin, s);
    var ts := TraceOf(lib, s, es);
    assert ts[0 + 1] == Next(lib, ts[0], es[0]);
    TraceFinishes(lib, pin, ts, es);
  }

  lemma AnsweredIsUndisturbed(pin: Pin, es: seq<Event>)
    requires AnsweredPass(pin.key, es)
    ensures Undisturbed(pin, es)
  {
  }

  lemma StuckRemaining(lib: Libraries, pin: Pin, s: State, es: seq<Event>)
    requires MayBegin(lib, pin, s) && ManagesUser(lib, pin) && ProperDigest(lib) && Undisturbed(pin, es) && !Nameable(PinnedScope(pin))
    ensures Remaining(pin, Run(lib, s, es).world) == Remaining(pin, s.world)
  {
    StuckForever(lib, pin, s, es);
    var t := Run(lib, s, es);
    assert Claimed(pin, t.world) <==> Claimed(pin, s.world);
  }

  /**
   * Deletion progress. From any intermediate state of a deletion whose references resolve, one pass
   * with every call answered leaves nothing behind exactly when the target's names can be written and
   * each closes where it ends; otherwise the removal is refused or cannot be read, and everything stays.
   */
  lemma AnsweredPassFinishesIff(lib: Libraries, pin: Pin, s: State, es: seq<Event>)
    requires MayBegin(lib, pin, s) && ManagesUser(lib, pin) && ProperDigest(lib) && AnsweredPass(pin.key, es)
    ensures var t := Run(lib, s, es);
            && (Remaining(pin, t.world) == 0 <==> Nameable(PinnedScope(pin)))
            && (Nameable(PinnedScope(pin)) ==> t.pass.Idle?)
            && (!Nameable(PinnedScope(pin)) ==> Remaining(pin, t.world) == Remaining(pin, s.world))
  {
    if Nameable(PinnedScope(pin)) {
      NameablePassFinishes(lib, pin, s, es);
    } else {
      AnsweredIsUndisturbed(pin, es);
      StuckRemaining(lib, pin, s, es);
    }
  }

  // ----- an allowed credential whose deletion never finishes -----

  /** A policy may grant a namespace that ends in a backslash, since nothing looks at the name. */
  const BACKSLASHED: PolicySpec := PolicySpec("main", "a\\", [], [], true, [Viewer])
  const STUCK_KEY: NamespacedName := NamespacedName("team", "app")
  const STUCK_SPEC: CredentialSpec := CredentialSpec("tenant", Namespace, "", [Viewer], "login", None)

  function StuckWorld(): World {
    World(
      map[STUCK_KEY := Credential("1", 0, 1, true, {FINALIZER}, map[], STUCK_SPEC, BLANK)],
      map[NamespacedName("ops", "root") := Secret(0, map[], [], OPAQUE, map["username" := "root", "password" := "secret"])],
      map[NamespacedName("team", "tenant") := BACKSLASHED],
      map["main" := ProviderSpec("wss://db", RootReference(NamespacedName("ops", "root"), "", ""), None)],
      map[], {"1"}, 1)
  }

  function StuckPin(lib: Libraries): Pin {
    Pin(STUCK_KEY, "tenant", Namespace, "", "login", "main", "a\\", "wss://db",
        Located("wss://db", UserTarget(Namespace, "a\\", ""),
                Username.Username(lib, "team", "app", PolicyTarget("main", "a\\", "", Namespace))))
  }

  lemma StuckNames()
    ensures UsePrefix(UserTarget(Namespace, "a\\", "")).Ok? && !Nameable(UserTarget(Namespace, "a\\", ""))
  {
    SurrealQL.TrailingBackslashes();
    assert SurrealQL.RunBefore("a\\", 2) == 1;
  }

  lemma StuckResolves(lib: Libraries)
    ensures var w := StuckWorld(); Resolve(lib, w, STUCK_KEY, w.credentials[STUCK_KEY]).Some?
  {
    assert Policy.MissingRoles([Viewer], [Viewer]) == [];
  }

  /** A pin that studies this credential, whatever its user. */
  predicate Studies(pin: Pin) {
    pin == Pin(STUCK_KEY, "tenant", Namespace, "", "login", "main", "a\\", "wss://db", pin.user)
  }

  lemma StuckIsPinned(pin: Pin)
    requires Studies(pin)
    ensures WorldPinned(pin, StuckWorld()) && Safe(pin, StuckWorld()) && Guarded(pin, StuckWorld())
  {
    assert SecretKey(pin) !in StuckWorld().secrets;
  }

  lemma StuckMayBegin(lib: Libraries, pin: Pin)
    requires Studies(pin)
    ensures MayBegin(lib, pin, State(StuckWorld(), Idle, []))
  {
    StuckResolves(lib);
    StuckIsPinned(pin);
  }

  lemma StuckPinManages(lib: Libraries)
    ensures ManagesUser(lib, StuckPin(lib)) && Studies(StuckPin(lib))
  {
  }

  /** The printer takes the name and the policy grants it, and no pass ever takes the finalizer away. */
  lemma AllowedDeletionNeverFinishes(lib: Libraries, es: seq<Event>)
    requires ProperDigest(lib) && AnsweredPass(STUCK_KEY, es)
    ensures Guarded(StuckPin(lib), Run(lib, State(StuckWorld(), Idle, []), es).world)
  {
    StuckNames();
    StuckPinManages(lib);
    StuckMayBegin(lib, StuckPin(lib));
    AnsweredIsUndisturbed(StuckPin(lib), es);
    StuckForever(lib, StuckPin(lib), State(StuckWorld(), Idle, []), es);
  }
}
