/**
 * What every pass knows of the target it has resolved: the username is its own identifier, and a
 * namespace-level request names no database.
 */
module Resolution {
  import opened Prelude
  import opened Platform
  import opened Api
  import opened Cluster
  import opened Policy
  import opened Identifiers
  import opened Protocol
  import Username

  predicate Scoped(c: Credential) {
    !c.spec.level.OtherLevel? && (c.spec.level.Namespace? ==> c.spec.database == "")
  }

  predicate PolicyPassed(pass: Pass) {
    pass.GetProvider? || pass.GetRoot? || pass.GetTls?
  }

  predicate WellResolved(pass: Pass) {
    && (PolicyPassed(pass) || HasResolved(pass) ==> Scoped(pass.cred))
    && (HasResolved(pass) ==> EscapeIdent(pass.resolved.username) == Ok(pass.resolved.username))
  }

  lemma PolicyCallResolvesWell(lib: Libraries, s: State, fault: Fault, now: int, drawn: Option<string>)
    requires s.pass.GetPolicy?
    ensures WellResolved(Advance(lib, s, fault, now, drawn).pass)
  {
  }

  lemma ReferenceCallResolvesWell(lib: Libraries, s: State, fault: Fault, now: int, drawn: Option<string>)
    requires WellResolved(s.pass) && (s.pass.GetProvider? || s.pass.GetRoot?)
    ensures WellResolved(Advance(lib, s, fault, now, drawn).pass)
  {
  }

  lemma TlsCallResolvesWell(lib: Libraries, s: State, fault: Fault, now: int, drawn: Option<string>)
    requires ProperDigest(lib) && WellResolved(s.pass) && s.pass.GetTls?
    ensures WellResolved(Advance(lib, s, fault, now, drawn).pass)
  {
    var target := Evaluate(s.pass.policy, RequestOf(s.pass.cred)).target;
    Username.UsernameIsItsOwnIdentifier(lib, s.pass.key.namespace, s.pass.key.name, target);
  }

  lemma PlanningCallResolvesWell(lib: Libraries, s: State, fault: Fault, now: int, drawn: Option<string>)
    requires WellResolved(s.pass) && (s.pass.GetTarget? || s.pass.Connect? || s.pass.ConnectToRemove?)
    ensures WellResolved(Advance(lib, s, fault, now, drawn).pass)
  {
  }

  lemma IssuingCallResolvesWell(lib: Libraries, s: State, fault: Fault, now: int, drawn: Option<string>)
    requires WellResolved(s.pass) && (s.pass.Define? || s.pass.WriteSecret?)
    ensures WellResolved(Advance(lib, s, fault, now, drawn).pass)
  {
  }

  lemma ReadCallResolvesNothing(lib: Libraries, s: State, fault: Fault, now: int, drawn: Option<string>)
    requires s.pass.GetCredential? || s.pass.GetLatest? || s.pass.AddFinalizer? || s.pass.DropFinalizer? || s.pass.PersistReady?
    ensures WellResolved(Advance(lib, s, fault, now, drawn).pass)
  {
  }

  lemma WriteCallResolvesNothing(lib: Libraries, s: State, fault: Fault, now: int, drawn: Option<string>)
    requires s.pass.WriteStatus?
    ensures WellResolved(Advance(lib, s, fault, now, drawn).pass)
  {
  }

  lemma RemovalCallResolvesNothing(lib: Libraries, s: State, fault: Fault, now: int, drawn: Option<string>)
    requires s.pass.ForcedDelete? || s.pass.RemoveUser? || s.pass.DeleteSecret?
    ensures WellResolved(Advance(lib, s, fault, now, drawn).pass)
  {
  }

  lemma CallResolvesWell(lib: Libraries, s: State, fault: Fault, now: int, drawn: Option<string>)
    requires ProperDigest(lib) && WellResolved(s.pass)
    ensures WellResolved(Advance(lib, s, fault, now, drawn).pass)
  {
    if s.pass.Idle? {
    } else if s.pass.GetPolicy? {
      PolicyCallResolvesWell(lib, s, fault, now, drawn);
    } else if s.pass.GetProvider? || s.pass.GetRoot? {
      ReferenceCallResolvesWell(lib, s, fault, now, drawn);
    } else if s.pass.GetTls? {
      TlsCallResolvesWell(lib, s, fault, now, drawn);
    } else if s.pass.GetTarget? || s.pass.Connect? || s.pass.ConnectToRemove? {
      PlanningCallResolvesWell(lib, s, fault, now, drawn);
    } else if s.pass.Define? || s.pass.WriteSecret? {
      IssuingCallResolvesWell(lib, s, fault, now, drawn);
    } else if s.pass.WriteStatus? {
      WriteCallResolvesNothing(lib, s, fault, now, drawn);
    } else if s.pass.ForcedDelete? || s.pass.RemoveUser? || s.pass.DeleteSecret? {
      RemovalCallResolvesNothing(lib, s, fault, now, drawn);
    } else {
      ReadCallResolvesNothing(lib, s, fault, now, drawn);
    }
  }

  lemma {:induction false} RunResolvesWell(lib: Libraries, s: State, es: seq<Event>)
    requires s.pass.Idle? && ProperDigest(lib)
    ensures WellResolved(Run(lib, s, es).pass)
    decreases |es|
  {
    if es != [] {
      var t, e := Run(lib, s, es[..|es| - 1]), es[|es| - 1];
      RunResolvesWell(lib, s, es[..|es| - 1]);
      if e.Proceed? {
        CallResolvesWell(lib, t, e.fault, e.now, e.drawn);
      }
    }
  }
}
