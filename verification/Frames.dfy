/**
 * What passes leave alone: the requests, annotations and foreign finalizers of every credential, and
 * every policy and provider.
 */
module Frames {
  import opened Prelude
  import opened Platform
  import opened Api
  import opened Cluster
  import opened Protocol
  import Schedules

  // ----- the object held for a write is a copy of the stored one -----

  /** While its version is current, the object is the stored one but for this one finalizer. */
  predicate Copies(w: World, k: NamespacedName, c: Credential, finalizers: set<string> -> set<string>) {
    && c.version < w.revision
    && (IsFresh(w, k, c) ==>
          var b := w.credentials[k];
          c.spec == b.spec && c.annotations == b.annotations && c.generation == b.generation && c.finalizers == finalizers(b.finalizers))
  }

  function WithFinalizer(finalizers: set<string>): set<string> {
    finalizers + {FINALIZER}
  }

  function WithoutFinalizer(finalizers: set<string>): set<string> {
    finalizers - {FINALIZER}
  }

  predicate HoldsCopy(w: World, pass: Pass) {
    && (pass.AddFinalizer? ==> Copies(w, pass.key, pass.cred, WithFinalizer))
    && (pass.DropFinalizer? ==> Copies(w, pass.key, pass.latest, WithoutFinalizer))
  }

  lemma RenewsKeepsCopy(w: World, v: World, pass: Pass)
    requires HoldsCopy(w, pass) && Schedules.Renews(w, v)
    ensures HoldsCopy(v, pass)
  {
  }

  lemma ReadCopies(lib: Libraries, s: State, e: Event)
    requires e.Proceed? && Schedules.Settled(s.world) && (s.pass.GetCredential? || s.pass.GetLatest?)
    ensures var t := Next(lib, s, e); HoldsCopy(t.world, t.pass)
  {
  }

  predicate HoldsNone(pass: Pass) {
    !pass.AddFinalizer? && !pass.DropFinalizer?
  }

  lemma ResolvingHoldsNone(lib: Libraries, s: State, e: Event)
    requires e.Proceed? && (s.pass.GetPolicy? || s.pass.GetProvider? || s.pass.GetRoot? || s.pass.GetTls? || s.pass.GetTarget?)
    ensures HoldsNone(Next(lib, s, e).pass)
  {
  }

  lemma WritingHoldsNone(lib: Libraries, s: State, e: Event)
    requires e.Proceed? && (s.pass.Connect? || s.pass.Define? || s.pass.WriteSecret? || s.pass.PersistReady? || s.pass.WriteStatus?)
    ensures HoldsNone(Next(lib, s, e).pass)
  {
  }

  lemma DeletingHoldsNone(lib: Libraries, s: State, e: Event)
    requires e.Proceed? && (s.pass.ForcedDelete? || s.pass.ConnectToRemove? || s.pass.RemoveUser? || s.pass.DeleteSecret?)
    ensures HoldsNone(Next(lib, s, e).pass)
  {
  }

  lemma CallCopies(lib: Libraries, s: State, e: Event)
    requires e.Proceed? && Schedules.Settled(s.world)
    ensures var t := Next(lib, s, e); HoldsCopy(t.world, t.pass)
  {
    if s.pass.GetCredential? || s.pass.GetLatest? {
      ReadCopies(lib, s, e);
    } else if s.pass.GetPolicy? || s.pass.GetProvider? || s.pass.GetRoot? || s.pass.GetTls? || s.pass.GetTarget? {
      ResolvingHoldsNone(lib, s, e);
    } else if s.pass.ForcedDelete? || s.pass.ConnectToRemove? || s.pass.RemoveUser? || s.pass.DeleteSecret? {
      DeletingHoldsNone(lib, s, e);
    } else if s.pass.Connect? || s.pass.Define? || s.pass.WriteSecret? || s.pass.PersistReady? || s.pass.WriteStatus? {
      WritingHoldsNone(lib, s, e);
    }
  }

  lemma {:induction false} RunCopies(lib: Libraries, s: State, es: seq<Event>)
    requires s.pass.Idle? && Schedules.Settled(s.world)
    ensures var t := Run(lib, s, es); Schedules.Settled(t.world) && HoldsCopy(t.world, t.pass)
    decreases |es|
  {
    if es != [] {
      var t, e := Run(lib, s, es[..|es| - 1]), es[|es| - 1];
      RunCopies(lib, s, es[..|es| - 1]);
      Schedules.RunIsSound(lib, s, es);
      match e
      case Outside(edit) =>
        Schedules.EditRenews(t.world, edit);
        RenewsKeepsCopy(t.world, Apply(t.world, edit), t.pass);
      case Proceed(_, _, _) => CallCopies(lib, t, e);
      case Begin(_) =>
      case Crash =>
    }
  }

  // ----- what one call changes of credentials -----

  /** The same object and request, and the finalizers of others. */
  predicate Spares(b: Credential, d: Credential) {
    && d.uid == b.uid && d.generation == b.generation && d.deleting == b.deleting
    && d.annotations == b.annotations && d.spec == b.spec
    && d.finalizers - {FINALIZER} == b.finalizers - {FINALIZER}
  }

  /** Credentials that remain are spared; one that goes was being deleted and had nobody else's finalizer. */
  predicate SparesAll(w: World, v: World) {
    && v.policies == w.policies && v.providers == w.providers
    && (forall k :: k in v.credentials ==> k in w.credentials && Spares(w.credentials[k], v.credentials[k]))
    && (forall k :: k in w.credentials && k !in v.credentials ==> w.credentials[k].deleting && w.credentials[k].finalizers <= {FINALIZER})
  }

  lemma SameCredentialsSpare(w: World, v: World)
    requires v.credentials == w.credentials && v.policies == w.policies && v.providers == w.providers
    ensures SparesAll(w, v)
  {
  }

  lemma StatusSpares(w: World, k: NamespacedName, c: Credential, fault: Fault)
    ensures SparesAll(w, Attempt(w, TryUpdateStatus(w, k, c), fault).0)
  {
    var attempt := TryUpdateStatus(w, k, c);
    if attempt.Some? {
      StatusWriteEffect(w, k, c, attempt.value);
      OnlyOneDiffers(w, attempt.value, k);
    }
  }

  lemma ObjectSpares(w: World, k: NamespacedName, c: Credential, fault: Fault)
    requires Copies(w, k, c, WithFinalizer) || Copies(w, k, c, WithoutFinalizer)
    ensures SparesAll(w, Attempt(w, TryUpdateObject(w, k, c), fault).0)
  {
    var attempt := TryUpdateObject(w, k, c);
    if attempt.Some? {
      CopyEffect(w, k, c, attempt.value);
      OnlyOneDiffers(w, attempt.value, k);
    }
  }

  lemma CopyEffect(w: World, k: NamespacedName, c: Credential, v: World)
    requires TryUpdateObject(w, k, c) == Some(v) && (Copies(w, k, c, WithFinalizer) || Copies(w, k, c, WithoutFinalizer))
    ensures v.policies == w.policies && v.providers == w.providers
    ensures forall j :: j != k ==> Lookup(v.credentials, j) == Lookup(w.credentials, j)
    ensures k in v.credentials ==> Spares(w.credentials[k], v.credentials[k])
    ensures k !in v.credentials ==> w.credentials[k].deleting && w.credentials[k].finalizers <= {FINALIZER}
  {
    ObjectWriteEffect(w, k, c, v);
    var before := w.credentials[k];
    assert v == StoreCredential(w, k, c.(uid := before.uid, deleting := before.deleting, status := before.status));
    if k !in v.credentials && Copies(w, k, c, WithoutFinalizer) {
      assert forall f :: f in before.finalizers ==> f == FINALIZER || f in c.finalizers;
    }
  }

  lemma OnlyOneDiffers(w: World, v: World, k: NamespacedName)
    requires v.policies == w.policies && v.providers == w.providers && k in w.credentials
    requires forall j :: j != k ==> Lookup(v.credentials, j) == Lookup(w.credentials, j)
    requires k in v.credentials ==> Spares(w.credentials[k], v.credentials[k])
    requires k !in v.credentials ==> w.credentials[k].deleting && w.credentials[k].finalizers <= {FINALIZER}
    ensures SparesAll(w, v)
  {
    forall j | j in v.credentials
      ensures j in w.credentials && Spares(w.credentials[j], v.credentials[j])
    {
      assert j == k || Lookup(v.credentials, j) == Lookup(w.credentials, j);
    }
    forall j | j in w.credentials && j !in v.credentials
      ensures j == k
    {
      assert j == k || Lookup(v.credentials, j) == Lookup(w.credentials, j);
    }
  }

  lemma ReadCallsSpare(lib: Libraries, s: State, e: Event)
    requires e.Proceed?
    requires s.pass.GetCredential? || s.pass.GetPolicy? || s.pass.GetProvider? || s.pass.GetRoot? || s.pass.GetTls? || s.pass.GetTarget?
             || s.pass.GetLatest? || s.pass.Connect? || s.pass.ConnectToRemove? || s.pass.Idle?
    ensures Next(lib, s, e).world == s.world
  {
  }

  lemma UserCallsSpare(lib: Libraries, s: State, e: Event)
    requires e.Proceed? && (s.pass.Define? || s.pass.RemoveUser?)
    ensures SparesAll(s.world, Next(lib, s, e).world)
  {
    SameCredentialsSpare(s.world, Next(lib, s, e).world);
  }

  lemma SecretCallsSpare(lib: Libraries, s: State, e: Event)
    requires e.Proceed? && (s.pass.WriteSecret? || s.pass.ForcedDelete? || s.pass.DeleteSecret?)
    ensures SparesAll(s.world, Next(lib, s, e).world)
  {
    if s.pass.WriteSecret? {
      SecretWriteSpares(lib, s.world, s.pass, e.fault);
    }
    SameCredentialsSpare(s.world, Next(lib, s, e).world);
  }

  lemma SecretWriteSpares(lib: Libraries, w: World, p: Pass, fault: Fault)
    requires p.WriteSecret?
    ensures var v := Attempt(w, SecretWrite(lib, w, p.key, p.cred, p.resolved, p.plan), fault).0;
            v.credentials == w.credentials && v.policies == w.policies && v.providers == w.providers
  {
  }

  /**
   * After every run, with any faults, crashes and edits at any moment: the next call of the pass in
   * progress keeps the request, annotations and foreign finalizers of every credential that remains, and
   * every policy and provider; and it takes a credential away only if that one was being deleted and had
   * no finalizer left but the operator's own.
   */
  lemma PassSparesCredentials(lib: Libraries, s: State, es: seq<Event>, e: Event)
    requires s.pass.Idle? && Schedules.Settled(s.world) && e.Proceed?
    ensures SparesAll(Run(lib, s, es).world, Next(lib, Run(lib, s, es), e).world)
  {
    var t := Run(lib, s, es);
    RunCopies(lib, s, es);
    if t.pass.WriteStatus? || t.pass.PersistReady? {
      StatusSpares(t.world, t.pass.key, t.pass.cred, e.fault);
    } else if t.pass.AddFinalizer? {
      ObjectSpares(t.world, t.pass.key, t.pass.cred, e.fault);
    } else if t.pass.DropFinalizer? {
      ObjectSpares(t.world, t.pass.key, t.pass.latest, e.fault);
    } else if t.pass.WriteSecret? || t.pass.ForcedDelete? || t.pass.DeleteSecret? {
      SecretCallsSpare(lib, t, e);
    } else if t.pass.Define? || t.pass.RemoveUser? {
      UserCallsSpare(lib, t, e);
    } else {
      ReadCallsSpare(lib, t, e);
      SameCredentialsSpare(t.world, t.world);
    }
  }

  /** The operator's own finalizer after a write of it that takes effect. */
  lemma FinalizerWrites(lib: Libraries, s: State, es: seq<Event>, e: Event)
    requires s.pass.Idle? && Schedules.Settled(s.world) && e.Proceed? && !e.fault.Lost?
    requires var t := Run(lib, s, es);
             (t.pass.AddFinalizer? && IsFresh(t.world, t.pass.key, t.pass.cred))
             || (t.pass.DropFinalizer? && IsFresh(t.world, t.pass.key, t.pass.latest))
    ensures var t, v := Run(lib, s, es), Next(lib, Run(lib, s, es), e).world;
            var b := t.world.credentials[t.pass.key];
            && (t.pass.AddFinalizer? ==>
                  t.pass.key in v.credentials && v.credentials[t.pass.key].finalizers == b.finalizers + {FINALIZER})
            && (t.pass.DropFinalizer? ==>
                  && (t.pass.key !in v.credentials <==> b.deleting && b.finalizers <= {FINALIZER})
                  && (t.pass.key in v.credentials ==> v.credentials[t.pass.key].finalizers == b.finalizers - {FINALIZER}))
  {
    var t := Run(lib, s, es);
    RunCopies(lib, s, es);
    var c := if t.pass.AddFinalizer? then t.pass.cred else t.pass.latest;
    var b := t.world.credentials[t.pass.key];
    ObjectWriteEffect(t.world, t.pass.key, c, TryUpdateObject(t.world, t.pass.key, c).value);
    assert b.finalizers <= {FINALIZER} <==> b.finalizers - {FINALIZER} == {};
    assert FINALIZER in b.finalizers + {FINALIZER};
  }
}
