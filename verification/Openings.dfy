/**
 * How a pass opens, by the finalizers and annotations of its credential: marking a new one, leaving a
 * released one alone, and cleaning up by force.
 */
module Openings {
  import opened Prelude
  import opened Platform
  import opened Api
  import opened Cluster
  import opened TargetSecret
  import opened Protocol

  /** The annotation asks for it, with just this value. */
  predicate AsksForForce(c: Credential) {
    "surrealdb.seamlezz.com/force-cleanup" in c.annotations && c.annotations["surrealdb.seamlezz.com/force-cleanup"] == "true"
  }

  /** A deletion leaves the remote user alone exactly when the annotation asks for it. */
  lemma ForcedIff(lib: Libraries, s: State, e: Event)
    requires s.pass.GetCredential? && Answered(e) && s.pass.key in s.world.credentials
    requires var c := s.world.credentials[s.pass.key]; c.deleting && FINALIZER in c.finalizers
    ensures var t, c := Next(lib, s, e), s.world.credentials[s.pass.key];
            && t == s.(pass := if AsksForForce(c) then ForcedDelete(s.pass.key, c) else GetPolicy(s.pass.key, c))
  {
  }

  // ----- passes that touch nothing but the finalizer -----

  /** A credential that is being deleted and does not hold the operator's finalizer is left alone. */
  lemma ReleasedIsLeftAlone(lib: Libraries, s: State, key: NamespacedName, e: Event)
    requires s.pass.Idle? && key in s.world.credentials && e.Proceed?
    requires var c := s.world.credentials[key]; c.deleting && FINALIZER !in c.finalizers
    ensures Run(lib, s, [Begin(key), e]) == s.(log := s.log + [Began(key)])
  {
    RunOfTwo(lib, s, Begin(key), e);
  }

  lemma RunOfTwo(lib: Libraries, s: State, a: Event, b: Event)
    ensures Run(lib, s, [a, b]) == Next(lib, Next(lib, s, a), b)
  {
    assert [a, b][..1] == [a] && [a][..0] == [];
    assert Run(lib, s, [a]) == Next(lib, s, a);
  }

  /** A live credential without the finalizer gets it, and nothing else changes. */
  lemma NewIsMarked(lib: Libraries, s: State, key: NamespacedName, es: seq<Event>)
    requires s.pass.Idle? && key in s.world.credentials && |es| == 3 && es[0] == Begin(key) && Answered(es[1]) && Answered(es[2])
    requires var c := s.world.credentials[key]; !c.deleting && FINALIZER !in c.finalizers
    ensures var c, t := s.world.credentials[key], Run(lib, s, es);
            && t.pass.Idle?
            && t.world == s.world.(credentials := s.world.credentials[key :=
                                     c.(finalizers := c.finalizers + {FINALIZER}, version := s.world.revision)],
                                   revision := s.world.revision + 1)
  {
    var ts := TraceOf(lib, s, es);
    assert ts[0 + 1] == Next(lib, ts[0], es[0]) && ts[1 + 1] == Next(lib, ts[1], es[1]) && ts[2 + 1] == Next(lib, ts[2], es[2]);
    var c := s.world.credentials[key];
    assert FINALIZER in c.finalizers + {FINALIZER};
  }

  // ----- cleanup by force -----

  lemma ForcedDeletion(lib: Libraries, s: State, e: Event)
    requires s.pass.ForcedDelete? && e.Proceed?
    ensures var t, k := Next(lib, s, e), TargetKey(s.pass.key, s.pass.cred);
            && t.world == s.world.(secrets :=
                 if !e.fault.Lost? && k in s.world.secrets && IsOwnedByCredential(s.world.secrets[k], s.pass.key.name, s.pass.cred.uid)
                 then s.world.secrets - {k} else s.world.secrets)
            && (Answered(e) ==> t.pass == GetLatest(s.pass.key))
            && (!Answered(e) ==> t.pass.WriteStatus? && t.pass.key == s.pass.key && t.pass.followUp.Unfinalize?)
  {
  }

  /** Recording the failure, whether or not that succeeds, leaves the finalizers and goes on to them. */
  lemma FailureRecorded(lib: Libraries, s: State, e: Event)
    requires s.pass.WriteStatus? && s.pass.followUp.Unfinalize? && e.Proceed?
    requires s.pass.key in s.world.credentials && s.world.credentials[s.pass.key].finalizers != {}
    ensures var t, key := Next(lib, s, e), s.pass.key;
            && t.pass == GetLatest(key) && t.world.users == s.world.users && t.world.secrets == s.world.secrets
            && key in t.world.credentials
            && t.world.credentials[key].finalizers == s.world.credentials[key].finalizers
            && t.world.credentials[key].deleting == s.world.credentials[key].deleting
  {
    var attempt := TryUpdateStatus(s.world, s.pass.key, s.pass.cred);
    if attempt.Some? {
      StatusWriteEffect(s.world, s.pass.key, s.pass.cred, attempt.value);
    }
  }

  lemma Released(lib: Libraries, s: State, a: Event, b: Event)
    requires s.pass.GetLatest? && Answered(a) && Answered(b) && s.pass.key in s.world.credentials
    requires var c := s.world.credentials[s.pass.key]; c.deleting && FINALIZER in c.finalizers
    ensures var key, t := s.pass.key, Next(lib, Next(lib, s, a), b);
            var c := s.world.credentials[key];
            && t.pass.Idle? && t.world.users == s.world.users && t.world.secrets == s.world.secrets
            && (key !in t.world.credentials <==> c.finalizers == {FINALIZER})
            && (key in t.world.credentials ==> t.world.credentials[key].finalizers == c.finalizers - {FINALIZER})
  {
    var c := s.world.credentials[s.pass.key];
    var d := c.(finalizers := c.finalizers - {FINALIZER});
    assert c.finalizers == {FINALIZER} <==> d.finalizers == {};
    assert Next(lib, s, a) == s.(pass := DropFinalizer(s.pass.key, d));
    ObjectWriteEffect(s.world, s.pass.key, d, TryUpdateObject(s.world, s.pass.key, d).value);
  }

  /** The calls of a forced pass: one more when deleting the Secret fails, to record that. */
  predicate ForcedCalls(key: NamespacedName, es: seq<Event>) {
    && |es| >= 5 && es[0] == Begin(key) && Answered(es[1]) && es[2].Proceed?
    && (if Answered(es[2]) then |es| == 5 else |es| == 6 && es[3].Proceed?)
    && Answered(es[|es| - 2]) && Answered(es[|es| - 1])
  }

  /**
   * A forced pass takes the operator's finalizer away, and the credential with it if that was the last one,
   * even when deleting the Secret fails. It deletes the Secret if the credential owns it, and no remote user.
   */
  lemma ForcedPassReleases(lib: Libraries, s: State, key: NamespacedName, es: seq<Event>)
    requires s.pass.Idle? && key in s.world.credentials && ForcedCalls(key, es)
    requires var c := s.world.credentials[key]; c.deleting && FINALIZER in c.finalizers && AsksForForce(c)
    ensures var t, c := Run(lib, s, es), s.world.credentials[key];
            var k := TargetKey(key, c);
            && t.pass.Idle? && t.world.users == s.world.users
            && (key !in t.world.credentials <==> c.finalizers == {FINALIZER})
            && (key in t.world.credentials ==> t.world.credentials[key].finalizers == c.finalizers - {FINALIZER})
            && t.world.secrets ==
               if !es[2].fault.Lost? && k in s.world.secrets && IsOwnedByCredential(s.world.secrets[k], key.name, c.uid)
               then s.world.secrets - {k} else s.world.secrets
  {
    var ts := TraceOf(lib, s, es);
    var c, n := s.world.credentials[key], |es|;
    assert ts[0 + 1] == Next(lib, ts[0], es[0]) && ts[1 + 1] == Next(lib, ts[1], es[1]) && ts[2 + 1] == Next(lib, ts[2], es[2]);
    ForcedIff(lib, ts[1], es[1]);
    ForcedDeletion(lib, ts[2], es[2]);
    if !Answered(es[2]) {
      assert ts[3 + 1] == Next(lib, ts[3], es[3]);
      FailureRecorded(lib, ts[3], es[3]);
    }
    assert ts[n - 2 + 1] == Next(lib, ts[n - 2], es[n - 2]) && ts[n - 1 + 1] == Next(lib, ts[n - 1], es[n - 1]);
    Released(lib, ts[n - 2], es[n - 2], es[n - 1]);
  }
}
